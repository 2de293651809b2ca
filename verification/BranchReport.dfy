/** The whole performance report: collection, overdue exposure and daily close
    of every branch, joined into one level with its reasons. */
module BranchReport {
  import opened Options
  import opened Integers
  import opened Permutations
  import opened DateGroups
  import opened BranchModel
  import opened BranchOverdue
  import opened BranchReasons
  import opened BranchDailyReasons
  import opened BranchExposure
  import opened BranchCollection

  // ---- the daily close ----

  datatype OperationStatus = Open | Closing | Closed
  datatype ReportStatus = ManagerReview | SentToOwner | OwnerApproved | ReturnedToManager

  /** `hasClosedAt` tells whether `closedAt` is set and not empty. */
  datatype DailyStatus = DailyStatus(
    branchId: string, operationDate: string, operationStatus: Option<OperationStatus>, hasClosedAt: bool,
    reportStatus: Option<ReportStatus>)

  datatype Compliance = Compliance(
    date: Option<string>, reconciled: bool, reportSubmitted: bool, level: Level, reason: string)

  function ComplianceOf(status: DailyStatus): Compliance {
    var reconciled := status.operationStatus == Some(Closed) && status.hasClosedAt;
    var reportSubmitted := status.reportStatus.Some? && !status.reportStatus.value.ManagerReview?;
    Compliance(Some(status.operationDate), reconciled, reportSubmitted,
      if reconciled && reportSubmitted then Healthy else Critical,
      if reconciled && reportSubmitted then
        "Branch reconciled and submitted the daily report for " + status.operationDate + "."
      else MissingReason(!reconciled, !reportSubmitted, status.operationDate))
  }

  const NO_COMPLIANCE: Compliance :=
    Compliance(None, true, true, Healthy, "No daily reconciliation check for this branch.")

  /** Of several statuses of a branch the last one is taken. */
  function LastCompliance(statuses: seq<DailyStatus>, branchId: string): Compliance {
    if statuses == [] then NO_COMPLIANCE
    else if statuses[|statuses| - 1].branchId == branchId then ComplianceOf(statuses[|statuses| - 1])
    else LastCompliance(statuses[..|statuses| - 1], branchId)
  }

  ghost predicate HoldsCompliance(byBranch: map<string, Compliance>, statuses: seq<DailyStatus>) {
    forall b :: LastCompliance(statuses, b) == if b in byBranch then byBranch[b] else NO_COMPLIANCE
  }

  method BuildDailyComplianceByBranch(statuses: seq<DailyStatus>) returns (byBranch: map<string, Compliance>)
    ensures HoldsCompliance(byBranch, statuses)
  {
    byBranch := map[];
    for i := 0 to |statuses|
      invariant HoldsCompliance(byBranch, statuses[..i])
    {
      assert statuses[..i + 1][..i] == statuses[..i];
      byBranch := byBranch[statuses[i].branchId := ComplianceOf(statuses[i])];
    }
    assert statuses[..|statuses|] == statuses;
  }

  lemma {:induction false} ComplianceRecognised(statuses: seq<DailyStatus>, branchId: string)
    ensures var c := LastCompliance(statuses, branchId);
      c.level != Healthy ==> c.date.Some? && KindOf(c.reason) == KindWithDate(c.date.value)
  {
    if statuses == [] {
    } else {
      var last := statuses[|statuses| - 1];
      if last.branchId == branchId {
        var c := ComplianceOf(last);
        if c.level != Healthy {
          MissingReasonKind(!c.reconciled, !c.reportSubmitted, last.operationDate);
        }
      } else {
        ComplianceRecognised(statuses[..|statuses| - 1], branchId);
      }
    }
  }

  /** Status `i` is the last one of the branch. */
  predicate LastOfBranch(statuses: seq<DailyStatus>, i: nat, branchId: string) {
    && i < |statuses| && statuses[i].branchId == branchId
    && forall j :: i < j < |statuses| ==> statuses[j].branchId != branchId
  }

  /** The last status of a branch decides: its day is healthy exactly when it was
      closed, with a closing time, and its report has left the manager. */
  lemma {:induction false} ComplianceIff(statuses: seq<DailyStatus>, i: nat, branchId: string)
    requires LastOfBranch(statuses, i, branchId)
    ensures var c, s := LastCompliance(statuses, branchId), statuses[i];
      && (c.reconciled <==> s.operationStatus == Some(Closed) && s.hasClosedAt)
      && (c.reportSubmitted <==> s.reportStatus in {Some(SentToOwner), Some(OwnerApproved), Some(ReturnedToManager)})
      && c.level == (if c.reconciled && c.reportSubmitted then Healthy else Critical)
      && c.date == Some(s.operationDate)
      && (c.level == Healthy ==>
            c.reason == "Branch reconciled and submitted the daily report for " + s.operationDate + ".")
  {
    var n := |statuses| - 1;
    if i < n {
      ComplianceIff(statuses[..n], i, branchId);
    }
  }

  /** A branch without a status has nothing to be blamed for. */
  lemma {:induction false} NoStatusIsHealthy(statuses: seq<DailyStatus>, branchId: string)
    requires forall s :: s in statuses ==> s.branchId != branchId
    ensures var c := LastCompliance(statuses, branchId);
      && c.level == Healthy && c.date == None && c.reconciled && c.reportSubmitted
      && c.reason == "No daily reconciliation check for this branch."
  {
    if statuses == [] {
    } else {
      assert statuses[|statuses| - 1] in statuses;
      NoStatusIsHealthy(statuses[..|statuses| - 1], branchId);
    }
  }

  // ---- the report of a branch ----

  datatype BranchPerformance = BranchPerformance(
    branchId: string, dailyRates: seq<DailyRate>, averageRate: Option<int>,
    collectionLevel: Level, collectionReason: string,
    overdueExposure: BranchOverdueExposure, dailyCompliance: Compliance,
    level: Level, reason: string, reasons: seq<string>)

  /** `lastNDates`: the days up to today, oldest first, each by its first millisecond. */
  function LastDates(days: nat, today: int): seq<int> {
    seq(days, i => StartOfDay(today) - (days - 1 - i) * DAY_MS)
  }

  function RateOn(loans: seq<Loan>, branchId: string, collected: CollectedMap, date: int): DailyRate {
    var expectedCount := ExpectedCount(loans, branchId, date);
    var collectedCount := |CollectedOn(collected, branchId, DayOf(date))|;
    DailyRate(DayOf(date), expectedCount, collectedCount, RateOf(collectedCount, expectedCount))
  }

  function RatesOn(loans: seq<Loan>, branchId: string, collected: CollectedMap, dates: seq<int>): seq<DailyRate> {
    if dates == [] then []
    else
      var n := |dates| - 1;
      RatesOn(loans, branchId, collected, dates[..n]) + [RateOn(loans, branchId, collected, dates[n])]
  }

  /** Joins the three checks of a branch. */
  function Assemble(branchId: string, dailyRates: seq<DailyRate>, overdue: BranchOverdueExposure,
      compliance: Compliance): BranchPerformance
  {
    var rates := RatesOf(dailyRates);
    var averageRate := AverageRate(rates);
    var collectionLevel := CollectionLevel(averageRate);
    var collectionReason := CollectionReason(averageRate, |rates|);
    var reasons := Present(collectionLevel != Healthy && collectionReason != "", collectionReason)
      + Present(overdue.level != Healthy && overdue.reason != "", overdue.reason)
      + Present(compliance.level != Healthy && compliance.reason != "", compliance.reason);
    BranchPerformance(branchId, dailyRates, averageRate, collectionLevel, collectionReason, overdue, compliance,
      Worst(Worst(collectionLevel, overdue.level), compliance.level),
      if reasons != [] then Join(reasons, " ") else collectionReason, reasons)
  }

  function Performance(branchId: string, loans: seq<Loan>, repayments: seq<Repayment>, statuses: seq<DailyStatus>,
      days: nat, today: int): BranchPerformance
  {
    Assemble(branchId,
      RatesOn(loans, branchId, Collected(LoanById(loans), repayments), LastDates(days, today)),
      ExposureOf(loans, branchId, PaidByLoan(repayments, today), today),
      LastCompliance(statuses, branchId))
  }

  function PerformanceFor(loans: seq<Loan>, repayments: seq<Repayment>, statuses: seq<DailyStatus>, days: nat,
      today: int)
    : string -> BranchPerformance
  {
    (branchId: string) => Performance(branchId, loans, repayments, statuses, days, today)
  }

  /** One performance for each of the branches, in their order. */
  ghost predicate ReportsOn(report: seq<BranchPerformance>, branches: seq<string>,
      performanceOf: string -> BranchPerformance)
  {
    |report| == |branches| && forall i :: 0 <= i < |branches| ==> report[i] == performanceOf(branches[i])
  }

  // ---- the loops ----

  method CollectLoanIds(loans: seq<Loan>, repayments: seq<Repayment>) returns (collected: CollectedMap)
    ensures collected == Collected(LoanById(loans), repayments)
  {
    var byId: map<string, Loan> := map[];
    for i := 0 to |loans|
      invariant byId == LoanById(loans[..i])
    {
      assert loans[..i + 1][..i] == loans[..i];
      byId := byId[loans[i].id := loans[i]];
    }
    assert loans[..|loans|] == loans;
    collected := map[];
    for i := 0 to |repayments|
      invariant collected == Collected(byId, repayments[..i])
    {
      assert repayments[..i + 1][..i] == repayments[..i];
      var repayment := repayments[i];
      if repayment.amount <= 0 || repayment.loanId !in byId {
        continue;
      }
      var key := (byId[repayment.loanId].branchId, DateKey(repayment.recordedAt));
      var loanIds := if key in collected then collected[key] else {};
      collected := collected[key := loanIds + {repayment.loanId}];
    }
    assert repayments[..|repayments|] == repayments;
  }

  /** `groupLoansByBranch`: loans pushed onto the list of their branch. */
  method GroupLoansByBranch(loans: seq<Loan>) returns (grouped: map<string, seq<Loan>>)
    ensures HoldsLoans(grouped, loans)
  {
    grouped := map[];
    for i := 0 to |loans|
      invariant HoldsLoans(grouped, loans[..i])
    {
      assert loans[..i + 1][..i] == loans[..i];
      var branchLoans := if loans[i].branchId in grouped then grouped[loans[i].branchId] else [];
      grouped := grouped[loans[i].branchId := branchLoans + [loans[i]]];
    }
    assert loans[..|loans|] == loans;
  }

  ghost predicate HoldsLoans(grouped: map<string, seq<Loan>>, loans: seq<Loan>) {
    forall b :: OfBranch(loans, b) == if b in grouped then grouped[b] else []
  }

  function OfBranch(loans: seq<Loan>, branchId: string): seq<Loan> {
    if loans == [] then []
    else
      var last := loans[|loans| - 1];
      OfBranch(loans[..|loans| - 1], branchId) + if last.branchId == branchId then [last] else []
  }

  lemma {:induction false} ExpectedOfBranch(loans: seq<Loan>, branchId: string, date: int)
    ensures ExpectedCount(OfBranch(loans, branchId), branchId, date) == ExpectedCount(loans, branchId, date)
  {
    if loans == [] {
    } else {
      var n := |loans| - 1;
      var f := ExpectedOne(branchId, date);
      ExpectedOfBranch(loans[..n], branchId, date);
      assert loans == loans[..n] + [loans[n]];
      TotalConcat(loans[..n], [loans[n]], f);
      var last := if loans[n].branchId == branchId then [loans[n]] else [];
      TotalConcat(OfBranch(loans[..n], branchId), last, f);
      assert [loans[n]][1..] == [];
      assert Total([loans[n]], f) == f(loans[n]);
    }
  }

  /** `buildBranchCollectionPerformance` */
  method BuildBranchCollectionPerformance(branches: seq<string>, loans: seq<Loan>, repayments: seq<Repayment>,
      statuses: seq<DailyStatus>, days: nat, today: int) returns (report: seq<BranchPerformance>)
    ensures ReportsOn(report, branches, PerformanceFor(loans, repayments, statuses, days, today))
  {
    var collected := CollectLoanIds(loans, repayments);
    var loansByBranch := GroupLoansByBranch(loans);
    var overdueByBranch := BuildOverdueExposureByBranch(branches, loans, repayments, today);
    var complianceByBranch := BuildDailyComplianceByBranch(statuses);
    ghost var performanceOf := PerformanceFor(loans, repayments, statuses, days, today);
    report := [];
    for i := 0 to |branches|
      invariant ReportsOn(report, branches[..i], performanceOf)
    {
      assert branches[i] in branches;
      var performance := ReportBranch(branches[i], loans, repayments, statuses, days, today,
        loansByBranch, collected, overdueByBranch[branches[i]], complianceByBranch);
      ReportNext(report, performance, branches, i, performanceOf);
      report := report + [performance];
    }
    assert branches[..|branches|] == branches;
  }

  lemma ReportNext(report: seq<BranchPerformance>, performance: BranchPerformance, branches: seq<string>, i: nat,
      performanceOf: string -> BranchPerformance)
    requires i < |branches| && ReportsOn(report, branches[..i], performanceOf)
    requires performance == performanceOf(branches[i])
    ensures ReportsOn(report + [performance], branches[..i + 1], performanceOf)
  {}

  /** The callback that maps a branch to its report. */
  method ReportBranch(branch: string, ghost loans: seq<Loan>, ghost repayments: seq<Repayment>,
      ghost statuses: seq<DailyStatus>,
      days: nat, today: int, loansByBranch: map<string, seq<Loan>>, collected: CollectedMap,
      overdue: BranchOverdueExposure, complianceByBranch: map<string, Compliance>)
      returns (performance: BranchPerformance)
    requires HoldsLoans(loansByBranch, loans)
    requires collected == Collected(LoanById(loans), repayments)
    requires overdue == ExposureOf(loans, branch, PaidByLoan(repayments, today), today)
    requires HoldsCompliance(complianceByBranch, statuses)
    ensures performance == PerformanceFor(loans, repayments, statuses, days, today)(branch)
  {
    var branchLoans := if branch in loansByBranch then loansByBranch[branch] else [];
    assert branchLoans == OfBranch(loans, branch);
    var compliance := if branch in complianceByBranch then complianceByBranch[branch] else NO_COMPLIANCE;
    assert compliance == LastCompliance(statuses, branch);
    var dates := LastDates(days, today);
    var dailyRates := DailyRates(loans, branchLoans, branch, collected, dates);
    performance := Assemble(branch, dailyRates, overdue, compliance);
  }

  method DailyRates(ghost loans: seq<Loan>, branchLoans: seq<Loan>, branch: string, collected: CollectedMap,
      dates: seq<int>)
      returns (dailyRates: seq<DailyRate>)
    requires branchLoans == OfBranch(loans, branch)
    ensures dailyRates == RatesOn(loans, branch, collected, dates)
  {
    dailyRates := [];
    for i := 0 to |dates|
      invariant dailyRates == RatesOn(loans, branch, collected, dates[..i])
    {
      assert dates[..i + 1][..i] == dates[..i];
      ExpectedOfBranch(loans, branch, dates[i]);
      dailyRates := dailyRates + [RateOn(branchLoans, branch, collected, dates[i])];
    }
    assert dates[..|dates|] == dates;
  }

  // ---- the daily rates ----

  lemma {:induction false} RatesAt(loans: seq<Loan>, branchId: string, collected: CollectedMap, dates: seq<int>, i: nat)
    requires i < |dates|
    ensures |RatesOn(loans, branchId, collected, dates)| == |dates|
    ensures RatesOn(loans, branchId, collected, dates)[i] == RateOn(loans, branchId, collected, dates[i])
  {
    var n := |dates| - 1;
    if n == 0 {
    } else {
      RatesAt(loans, branchId, collected, dates[..n], if i < n then i else 0);
    }
  }

  lemma LastDatesAreDays(days: nat, today: int, i: nat)
    requires i < days
    ensures DayOf(LastDates(days, today)[i]) == DayOf(today) - (days - 1 - i)
  {}

  /** The report has one rate for each of the last days, today included: out of
      the loans expected that day, the distinct loans of the branch with a
      positive repayment that day; none when nothing was expected. */
  lemma DailyRatesCountLoans(branchId: string, loans: seq<Loan>, repayments: seq<Repayment>, statuses: seq<DailyStatus>,
      days: nat, today: int, i: nat)
    requires i < days
    ensures var daily := Performance(branchId, loans, repayments, statuses, days, today).dailyRates;
      && |daily| == days
      && daily[i].day == DayOf(today) - (days - 1 - i)
      && daily[i].collectedCount == |LoansPaidOn(loans, repayments, branchId, daily[i].day)|
      && daily[i].expectedCount == |LoansExpected(loans, branchId, daily[i].day)|
      && daily[i].rate == RateOf(daily[i].collectedCount, daily[i].expectedCount)
  {
    var dates := LastDates(days, today);
    LastDatesAreDays(days, today, i);
    RatesAt(loans, branchId, Collected(LoanById(loans), repayments), dates, i);
    CollectedAreLoansPaid(loans, repayments, branchId, DayOf(dates[i]));
    ExpectedCountsLoans(loans, branchId, dates[i]);
  }

  lemma {:induction false} RatesOfRated(daily: seq<DailyRate>)
    ensures forall d :: d in daily && d.rate.Some? ==> d.rate.value in RatesOf(daily)
    ensures forall rate :: rate in RatesOf(daily) ==> exists d :: d in daily && d.rate == Some(rate)
  {
    if daily == [] {
    } else {
      RatesOfRated(daily[..|daily| - 1]);
      assert daily == daily[..|daily| - 1] + [daily[|daily| - 1]];
    }
  }

  lemma {:induction false} SomeExtremes(rates: seq<int>) returns (lo: int, hi: int)
    requires rates != []
    ensures lo in rates && hi in rates && forall i :: 0 <= i < |rates| ==> lo <= rates[i] <= hi
  {
    var n := |rates| - 1;
    if n == 0 {
      lo, hi := rates[0], rates[0];
    } else {
      lo, hi := SomeExtremes(rates[..n]);
      assert rates == rates[..n] + [rates[n]];
      lo, hi := Min(lo, rates[n]), Max(hi, rates[n]);
    }
  }

  /** Day `d` has a rate of at most (at least) `rate`. */
  predicate RatedAtMost(d: DailyRate, rate: int) { d.rate.Some? && d.rate.value <= rate }
  predicate RatedAtLeast(d: DailyRate, rate: int) { d.rate.Some? && rate <= d.rate.value }

  /** The report has an average rate exactly when some day is rated, and it lies
      between the rates of two of the days. */
  lemma AverageRateBetweenDays(branchId: string, loans: seq<Loan>, repayments: seq<Repayment>,
      statuses: seq<DailyStatus>, days: nat, today: int)
    ensures var p := Performance(branchId, loans, repayments, statuses, days, today);
      && (p.averageRate.Some? <==> exists d :: d in p.dailyRates && d.rate.Some?)
      && (p.averageRate.Some? ==>
            ((exists d :: d in p.dailyRates && RatedAtMost(d, p.averageRate.value))
             && exists d :: d in p.dailyRates && RatedAtLeast(d, p.averageRate.value)))
  {
    AverageOfDays(RatesOn(loans, branchId, Collected(LoanById(loans), repayments), LastDates(days, today)));
  }

  lemma AverageOfDays(daily: seq<DailyRate>)
    ensures var average := AverageRate(RatesOf(daily));
      && (average.Some? <==> exists d :: d in daily && d.rate.Some?)
      && (average.Some? ==>
            ((exists d :: d in daily && RatedAtMost(d, average.value))
             && exists d :: d in daily && RatedAtLeast(d, average.value)))
  {
    var rates := RatesOf(daily);
    RatesOfRated(daily);
    if rates != [] {
      var lo, hi := SomeExtremes(rates);
      AverageBetween(rates, lo, hi);
      var d, e :| d in daily && d.rate == Some(lo) && e in daily && e.rate == Some(hi);
      assert RatedAtMost(d, AverageRate(rates).value) && RatedAtLeast(e, AverageRate(rates).value);
      assert rates[0] in rates;
    }
  }

  // ---- the level and its reasons ----

  function Kinds(reasons: seq<string>): seq<ReasonKind> {
    if reasons == [] then [] else [KindOf(reasons[0])] + Kinds(reasons[1..])
  }

  function If<T>(condition: bool, x: T): seq<T> {
    if condition then [x] else []
  }

  /** The kinds of one sentence for each check that failed. */
  function FailedChecks(p: BranchPerformance): seq<ReasonKind> {
    If(p.collectionLevel != Healthy, CollectionKind)
    + If(p.overdueExposure.level != Healthy, OverdueKind)
    + If(p.dailyCompliance.level != Healthy, DailyKind)
  }

  /** There are no reasons exactly when the branch is healthy.  For all counts,
      the reasons are one sentence for each check that failed, which the
      classifier traces back to that check, exactly when the daily close is
      healthy or its date is no text that is itself classified as another check. */
  lemma ReasonsNameFailedChecks(branchId: string, loans: seq<Loan>, repayments: seq<Repayment>,
      statuses: seq<DailyStatus>, days: nat, today: int)
    ensures var p := Performance(branchId, loans, repayments, statuses, days, today);
      && (p.reasons == [] <==> p.level == Healthy)
      && (p.dailyCompliance.level != Healthy ==> p.dailyCompliance.date.Some?)
      && (Kinds(p.reasons) == FailedChecks(p) <==>
            p.dailyCompliance.level == Healthy || KindWithDate(p.dailyCompliance.date.value) == DailyKind)
  {
    var rates := RatesOn(loans, branchId, Collected(LoanById(loans), repayments), LastDates(days, today));
    var overdue := ExposureOf(loans, branchId, PaidByLoan(repayments, today), today);
    ExposureRecognised(loans, branchId, PaidByLoan(repayments, today), today);
    ComplianceRecognised(statuses, branchId);
    AssembledReasons(branchId, rates, overdue, LastCompliance(statuses, branchId));
    AssembleParts(branchId, rates, overdue, LastCompliance(statuses, branchId));
    var front := If(CollectionLevel(AverageRate(RatesOf(rates))) != Healthy, CollectionKind)
      + If(overdue.level != Healthy, OverdueKind);
    SameLast(front, KindOf(LastCompliance(statuses, branchId).reason), DailyKind);
  }

  lemma SameLast<T>(front: seq<T>, x: T, y: T)
    ensures front + [x] == front + [y] <==> x == y
  {
    assert (front + [x])[|front|] == x && (front + [y])[|front|] == y;
  }

  lemma AssembleParts(branchId: string, dailyRates: seq<DailyRate>, overdue: BranchOverdueExposure,
      compliance: Compliance)
    ensures var p := Assemble(branchId, dailyRates, overdue, compliance);
      p.overdueExposure == overdue && p.dailyCompliance == compliance
  {}

  lemma ExposureRecognised(loans: seq<Loan>, branchId: string, paid: map<string, int>, today: int)
    ensures var e := ExposureOf(loans, branchId, paid, today);
      e.level != Healthy ==> KindOf(e.reason) == OverdueKind
  {
    var e := ExposureOf(loans, branchId, paid, today);
    if e.level != Healthy {
      OverdueReasonRecognised(e.followUpCount, e.highRiskCount, e.criticalCount, Max(0, e.maxOverdueDays));
    }
  }

  lemma AssembledReasons(branchId: string, dailyRates: seq<DailyRate>, overdue: BranchOverdueExposure,
      compliance: Compliance)
    requires overdue.level != Healthy ==> KindOf(overdue.reason) == OverdueKind
    requires compliance.level != Healthy ==> KindOf(compliance.reason) != OtherKind
    ensures var p := Assemble(branchId, dailyRates, overdue, compliance);
      && Kinds(p.reasons) == If(p.collectionLevel != Healthy, CollectionKind)
           + If(overdue.level != Healthy, OverdueKind)
           + If(compliance.level != Healthy, KindOf(compliance.reason))
      && (p.reasons == [] <==> p.level == Healthy)
  {
    EmptyIsOther();
    var rates := RatesOf(dailyRates);
    var level, reason := CollectionLevel(AverageRate(rates)), CollectionReason(AverageRate(rates), |rates|);
    if level != Healthy {
      CollectionReasonRecognised(AverageRate(rates), |rates|);
    }
    KindsOfThree(level != Healthy, reason, overdue.level != Healthy, overdue.reason,
      compliance.level != Healthy, compliance.reason);
  }

  lemma EmptyIsOther()
    ensures KindOf("") == OtherKind
  {}

  lemma KindsOfThree(a: bool, x: string, b: bool, y: string, c: bool, z: string)
    ensures Kinds(Present(a, x) + Present(b, y) + Present(c, z))
      == If(a, KindOf(x)) + If(b, KindOf(y)) + If(c, KindOf(z))
  {
    KindsConcat(Present(a, x) + Present(b, y), Present(c, z));
    KindsConcat(Present(a, x), Present(b, y));
  }

  lemma {:induction false} KindsConcat(s: seq<string>, t: seq<string>)
    ensures Kinds(s + t) == Kinds(s) + Kinds(t)
  {
    if s == [] {
      assert s + t == t;
    } else {
      assert (s + t)[1..] == s[1..] + t;
      KindsConcat(s[1..], t);
    }
  }

  /** The text of a report: the reasons are the sentences of the checks that
      failed, and they are put together with blanks; a healthy branch is given
      the sentence about its repayments. */
  lemma ReportText(branchId: string, dailyRates: seq<DailyRate>, overdue: BranchOverdueExposure, compliance: Compliance)
    requires overdue.level != Healthy ==> overdue.reason != ""
    requires compliance.level != Healthy ==> compliance.reason != ""
    ensures var p := Assemble(branchId, dailyRates, overdue, compliance);
      && p.reasons == If(p.collectionLevel != Healthy, p.collectionReason)
           + If(overdue.level != Healthy, overdue.reason)
           + If(compliance.level != Healthy, compliance.reason)
      && p.reason == (match |p.reasons|
           case 0 => p.collectionReason
           case 1 => p.reasons[0]
           case 2 => p.reasons[0] + " " + p.reasons[1]
           case _ => p.reasons[0] + " " + p.reasons[1] + " " + p.reasons[2])
  {
    var p := Assemble(branchId, dailyRates, overdue, compliance);
    CollectionSentenceNotEmpty(p.averageRate, |RatesOf(dailyRates)|);
    if |p.reasons| == 2 {
      JoinPair(p.reasons);
    } else if |p.reasons| == 3 {
      JoinTriple(p.reasons);
    }
  }

  lemma CollectionSentenceNotEmpty(averageRate: Option<int>, ratedDays: nat)
    ensures CollectionReason(averageRate, ratedDays) != ""
  {}

  lemma JoinPair(s: seq<string>)
    requires |s| == 2
    ensures Join(s, " ") == s[0] + " " + s[1]
  {
    assert s[1..] == [s[1]];
  }

  lemma JoinTriple(s: seq<string>)
    requires |s| == 3
    ensures Join(s, " ") == s[0] + " " + s[1] + " " + s[2]
  {
    JoinPair(s[1..]);
    assert s[0] + " " + (s[1] + " " + s[2]) == s[0] + " " + s[1] + " " + s[2];
  }

  /** The text of the report of a branch, in particular. */
  lemma ReportTextOfBranch(branchId: string, loans: seq<Loan>, repayments: seq<Repayment>, statuses: seq<DailyStatus>,
      days: nat, today: int)
    ensures var p := Performance(branchId, loans, repayments, statuses, days, today);
      && p.branchId == branchId
      && p.collectionReason == CollectionReason(p.averageRate, |RatesOf(p.dailyRates)|)
      && p.reasons == If(p.collectionLevel != Healthy, p.collectionReason)
           + If(p.overdueExposure.level != Healthy, p.overdueExposure.reason)
           + If(p.dailyCompliance.level != Healthy, p.dailyCompliance.reason)
      && (p.reasons == [] ==> p.reason == p.collectionReason)
  {
    var rates := RatesOn(loans, branchId, Collected(LoanById(loans), repayments), LastDates(days, today));
    var overdue := ExposureOf(loans, branchId, PaidByLoan(repayments, today), today);
    EmptyIsOther();
    ExposureRecognised(loans, branchId, PaidByLoan(repayments, today), today);
    ComplianceRecognised(statuses, branchId);
    ReportText(branchId, rates, overdue, LastCompliance(statuses, branchId));
    AssembleParts(branchId, rates, overdue, LastCompliance(statuses, branchId));
  }

  lemma AssembledLevel(branchId: string, dailyRates: seq<DailyRate>, overdue: BranchOverdueExposure,
      compliance: Compliance)
    ensures var p := Assemble(branchId, dailyRates, overdue, compliance);
      p.level == Worst(Worst(p.collectionLevel, p.overdueExposure.level), p.dailyCompliance.level)
  {}

  /** A branch is critical below 50 percent, needs attention up to 70 percent, and
      is healthy above that or when no day is rated. */
  lemma CollectionLevelOfReport(branchId: string, loans: seq<Loan>, repayments: seq<Repayment>,
      statuses: seq<DailyStatus>, days: nat, today: int)
    ensures var p := Performance(branchId, loans, repayments, statuses, days, today);
      && (p.collectionLevel == Critical <==> p.averageRate.Some? && p.averageRate.value < 500)
      && (p.collectionLevel == Attention <==> p.averageRate.Some? && 500 <= p.averageRate.value <= 700)
      && (p.collectionLevel == Healthy <==> p.averageRate.None? || 700 < p.averageRate.value)
  {
    CollectionLevels(Performance(branchId, loans, repayments, statuses, days, today).averageRate);
  }

  /** No level above the reported one is reported by a check, and one check reports it. */
  lemma LevelIsJoin(branchId: string, loans: seq<Loan>, repayments: seq<Repayment>, statuses: seq<DailyStatus>,
      days: nat, today: int, above: Level)
    ensures var p := Performance(branchId, loans, repayments, statuses, days, today);
      Severity(p.level) <= Severity(above) <==>
        Severity(p.collectionLevel) <= Severity(above) && Severity(p.overdueExposure.level) <= Severity(above)
        && Severity(p.dailyCompliance.level) <= Severity(above)
  {
    var p := Performance(branchId, loans, repayments, statuses, days, today);
    AssembledLevel(branchId, p.dailyRates, p.overdueExposure, p.dailyCompliance);
    WorstIsJoin(p.collectionLevel, p.overdueExposure.level, above);
    WorstIsJoin(Worst(p.collectionLevel, p.overdueExposure.level), p.dailyCompliance.level, above);
  }
}
