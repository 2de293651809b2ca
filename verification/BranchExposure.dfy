/** The overdue exposure of every branch: payments summed per loan, one flagged
    loan kept per customer, and the counts that decide the level. */
module BranchExposure {
  import opened Options
  import opened Integers
  import opened OrderedMaps
  import opened StableSort
  import opened Permutations
  import opened DateGroups
  import opened BranchModel
  import opened BranchOverdue
  import opened BranchReasons

  // ---- payments per loan ----

  /** A repayment that counts by the end of today. */
  predicate Counts(r: Repayment, today: int) {
    ParseDate(r.recordedAt).Some? && r.recordedAt.ms <= EndOfDay(today) && r.amount > 0
  }

  function AddPayment(paid: map<string, int>, r: Repayment, today: int): map<string, int> {
    if !Counts(r, today) then paid
    else paid[r.loanId := (if r.loanId in paid then paid[r.loanId] else 0) + r.amount]
  }

  function PaidByLoan(repayments: seq<Repayment>, today: int): map<string, int> {
    if repayments == [] then map[]
    else AddPayment(PaidByLoan(repayments[..|repayments| - 1], today), repayments[|repayments| - 1], today)
  }

  function Share(loanId: string, today: int): Repayment -> int {
    (r: Repayment) => if r.loanId == loanId && Counts(r, today) then r.amount else 0
  }

  /** What was paid on a loan: a plain sum over the repayments. */
  function PaidOn(repayments: seq<Repayment>, loanId: string, today: int): int {
    Total(repayments, Share(loanId, today))
  }

  /** A positive repayment counts up to the end of today, later today included. */
  lemma CountsUntilEndOfToday(r: Repayment, today: int)
    ensures Counts(r, today) <==> r.recordedAt.At? && DayOf(r.recordedAt.ms) <= DayOf(today) && r.amount > 0
  {}

  /** The loop's map holds exactly the loans with a counted repayment, and their sums. */
  lemma {:induction false} PaidByLoanIsSum(repayments: seq<Repayment>, today: int, loanId: string)
    ensures PaidOn(repayments, loanId, today) >= 0
    ensures loanId in PaidByLoan(repayments, today) <==> PaidOn(repayments, loanId, today) > 0
    ensures loanId in PaidByLoan(repayments, today) ==>
      PaidByLoan(repayments, today)[loanId] == PaidOn(repayments, loanId, today)
  {
    if repayments == [] {
    } else {
      var n := |repayments| - 1;
      var front, last := repayments[..n], repayments[n];
      PaidByLoanIsSum(front, today, loanId);
      assert repayments == front + [last];
      TotalConcat(front, [last], Share(loanId, today));
      assert Total([last], Share(loanId, today))
        == Total([last][1..], Share(loanId, today)) + Share(loanId, today)(last);
    }
  }

  lemma PaidByLoanPermuted(a: seq<Repayment>, b: seq<Repayment>, today: int)
    requires multiset(a) == multiset(b)
    ensures PaidByLoan(a, today) == PaidByLoan(b, today)
  {
    forall id
      ensures (id in PaidByLoan(a, today) <==> id in PaidByLoan(b, today))
      ensures PaidOn(a, id, today) == PaidOn(b, id, today)
    {
      PaidByLoanIsSum(a, today, id);
      PaidByLoanIsSum(b, today, id);
      TotalPermuted(a, b, Share(id, today));
    }
    forall id | id in PaidByLoan(a, today) ensures PaidByLoan(a, today)[id] == PaidByLoan(b, today)[id] {
      PaidByLoanIsSum(a, today, id);
      PaidByLoanIsSum(b, today, id);
    }
  }

  // ---- the flagged loan kept per customer ----

  /** The recorded payments of a loan, or else the amount the loan carries. */
  function PaidFigure(loan: Loan, paid: map<string, int>): int {
    if loan.id in paid then paid[loan.id] else loan.paidAmount
  }

  function Flag(loan: Loan, paid: map<string, int>, today: int): Option<Exposure> {
    ExposureForLoan(loan, PaidFigure(loan, paid), today)
  }

  type Borrowers = OrderedMap<Exposure>

  const NO_BORROWERS: Borrowers := OrderedMap([], map[])

  /** The first loan of a customer is kept until a loan with a worse status comes. */
  function Keep(b: Borrowers, e: Exposure): Borrowers {
    if e.customerId !in b.entries || Severity(e.status) > Severity(b.entries[e.customerId].status) then
      Put(b, e.customerId, e)
    else b
  }

  function Kept(loans: seq<Loan>, branchId: string, paid: map<string, int>, today: int): Borrowers {
    if loans == [] then NO_BORROWERS
    else
      var before := Kept(loans[..|loans| - 1], branchId, paid, today);
      var loan := loans[|loans| - 1];
      var flag := Flag(loan, paid, today);
      if loan.branchId == branchId && flag.Some? then Keep(before, flag.value) else before
  }

  /** A flagged loan of the customer at the branch. */
  predicate FlaggedOf(l: Loan, branchId: string, customerId: string, paid: map<string, int>, today: int) {
    l.branchId == branchId && l.customerId == customerId && Flag(l, paid, today).Some?
  }

  /** Loan `i` is one. */
  predicate FlaggedFor(loans: seq<Loan>, i: nat, branchId: string, customerId: string, paid: map<string, int>,
      today: int)
  {
    i < |loans| && FlaggedOf(loans[i], branchId, customerId, paid, today)
  }

  function SeverityAt(loans: seq<Loan>, i: nat, paid: map<string, int>, today: int): nat
    requires i < |loans|
  {
    var flag := Flag(loans[i], paid, today);
    if flag.Some? then Severity(flag.value.status) else 0
  }

  /** Among the flagged loans of the customer, loan `i` is the first of the worst. */
  ghost predicate FirstWorst(loans: seq<Loan>, i: nat, branchId: string, customerId: string, paid: map<string, int>,
      today: int)
  {
    && FlaggedFor(loans, i, branchId, customerId, paid, today)
    && forall j: nat :: FlaggedFor(loans, j, branchId, customerId, paid, today) ==>
         SeverityAt(loans, j, paid, today) <= SeverityAt(loans, i, paid, today)
         && (j < i ==> SeverityAt(loans, j, paid, today) < SeverityAt(loans, i, paid, today))
  }

  lemma {:induction false} KeptValid(loans: seq<Loan>, branchId: string, paid: map<string, int>, today: int)
    ensures ValidMap(Kept(loans, branchId, paid, today))
  {
    if loans == [] {
    } else {
      KeptValid(loans[..|loans| - 1], branchId, paid, today);
    }
  }

  lemma FlaggedPrefix(loans: seq<Loan>, j: nat, branchId: string, customerId: string, paid: map<string, int>,
      today: int)
    requires loans != [] && j < |loans| - 1
    ensures FlaggedFor(loans[..|loans| - 1], j, branchId, customerId, paid, today)
      == FlaggedFor(loans, j, branchId, customerId, paid, today)
    ensures SeverityAt(loans[..|loans| - 1], j, paid, today) == SeverityAt(loans, j, paid, today)
  {}

  /** Each customer with a flagged loan, and nobody else, is kept once, with the
      first of their loans that has their worst status. */
  lemma {:induction false} KeptIsFirstWorst(loans: seq<Loan>, branchId: string, paid: map<string, int>, today: int,
      customerId: string)
    ensures customerId in Kept(loans, branchId, paid, today).entries <==>
      exists i: nat :: FlaggedFor(loans, i, branchId, customerId, paid, today)
    ensures customerId in Kept(loans, branchId, paid, today).entries ==>
      exists i: nat :: FirstWorst(loans, i, branchId, customerId, paid, today)
        && Flag(loans[i], paid, today) == Some(Kept(loans, branchId, paid, today).entries[customerId])
  {
    if loans == [] {
    } else {
      var n := |loans| - 1;
      var front := loans[..n];
      KeptIsFirstWorst(front, branchId, paid, today, customerId);
      KeptEntry(loans, branchId, paid, today, customerId);
      NextEntry(loans, Kept(front, branchId, paid, today).entries, Kept(loans, branchId, paid, today).entries,
        branchId, customerId, paid, today);
    }
  }

  /** The entry of the customer, if there is one, is the first of the worst. */
  ghost predicate EntryIsFirstWorst(loans: seq<Loan>, entries: map<string, Exposure>, branchId: string,
      customerId: string, paid: map<string, int>, today: int)
  {
    && (customerId in entries <==> exists i: nat :: FlaggedFor(loans, i, branchId, customerId, paid, today))
    && (customerId in entries ==>
          exists i: nat :: FirstWorst(loans, i, branchId, customerId, paid, today)
            && Flag(loans[i], paid, today) == Some(entries[customerId]))
  }

  /** What the last loan does to the entry of a customer. */
  predicate EntryStep(loans: seq<Loan>, before: map<string, Exposure>, after: map<string, Exposure>, branchId: string,
      customerId: string, paid: map<string, int>, today: int)
    requires loans != []
  {
    var n := |loans| - 1;
    if FlaggedFor(loans, n, branchId, customerId, paid, today)
       && (customerId in before ==> SeverityAt(loans, n, paid, today) > Severity(before[customerId].status))
    then customerId in after && Flag(loans[n], paid, today) == Some(after[customerId])
    else
      && (customerId in after <==> customerId in before)
      && (customerId in before ==> after[customerId] == before[customerId])
  }

  lemma KeptEntry(loans: seq<Loan>, branchId: string, paid: map<string, int>, today: int, customerId: string)
    requires loans != []
    ensures EntryStep(loans, Kept(loans[..|loans| - 1], branchId, paid, today).entries,
      Kept(loans, branchId, paid, today).entries, branchId, customerId, paid, today)
  {
    var loan := loans[|loans| - 1];
    FlaggedExactlyWhenBehind(loan, PaidFigure(loan, paid), today);
  }

  lemma NextEntry(loans: seq<Loan>, before: map<string, Exposure>, after: map<string, Exposure>, branchId: string,
      customerId: string, paid: map<string, int>, today: int)
    requires loans != [] && EntryIsFirstWorst(loans[..|loans| - 1], before, branchId, customerId, paid, today)
    requires EntryStep(loans, before, after, branchId, customerId, paid, today)
    ensures EntryIsFirstWorst(loans, after, branchId, customerId, paid, today)
  {
    var n := |loans| - 1;
    var front := loans[..n];
    forall j: nat | j < n
      ensures FlaggedFor(front, j, branchId, customerId, paid, today)
        == FlaggedFor(loans, j, branchId, customerId, paid, today)
    {
      FlaggedPrefix(loans, j, branchId, customerId, paid, today);
    }
    if customerId in before {
      var i: nat :| FirstWorst(front, i, branchId, customerId, paid, today)
        && Flag(front[i], paid, today) == Some(before[customerId]);
      assert FlaggedFor(loans, i, branchId, customerId, paid, today);
      NextKept(loans, i, branchId, customerId, paid, today);
    } else if FlaggedFor(loans, n, branchId, customerId, paid, today) {
      assert FirstWorst(loans, n, branchId, customerId, paid, today);
    }
  }

  lemma NextKept(loans: seq<Loan>, i: nat, branchId: string, customerId: string, paid: map<string, int>, today: int)
    requires loans != [] && FirstWorst(loans[..|loans| - 1], i, branchId, customerId, paid, today)
    ensures var n := |loans| - 1;
      if FlaggedFor(loans, n, branchId, customerId, paid, today)
         && SeverityAt(loans, n, paid, today) > SeverityAt(loans, i, paid, today)
      then FirstWorst(loans, n, branchId, customerId, paid, today)
      else FirstWorst(loans, i, branchId, customerId, paid, today)
  {
    var front := loans[..|loans| - 1];
    forall j: nat | j < |front|
      ensures FlaggedFor(front, j, branchId, customerId, paid, today)
        == FlaggedFor(loans, j, branchId, customerId, paid, today)
      ensures SeverityAt(front, j, paid, today) == SeverityAt(loans, j, paid, today)
    {
      FlaggedPrefix(loans, j, branchId, customerId, paid, today);
    }
  }

  // ---- the exposure of a branch ----

  datatype BranchOverdueExposure = BranchOverdueExposure(
    borrowers: seq<Exposure>, followUpCount: nat, highRiskCount: nat, criticalCount: nat,
    totalFlagged: nat, maxOverdueDays: int, level: Level, reason: string)

  function ValuesOf(b: Borrowers): (values: seq<Exposure>)
    requires ValidMap(b)
    ensures |values| == |b.order|
  {
    seq(|b.order|, i requires 0 <= i < |b.order| => assert b.order[i] in b.order; b.entries[b.order[i]])
  }

  /** The comparator of the borrowers' sort. */
  function ByOverdue(a: Exposure, b: Exposure): int { b.overdueDays - a.overdueDays }

  function OverdueRank(e: Exposure): Rank { Rank(0, -e.overdueDays) }

  lemma ByOverdueComparesRanks(a: Exposure, b: Exposure)
    ensures ByOverdue(a, b) < 0 <==> Less(OverdueRank(a), OverdueRank(b))
    ensures ByOverdue(a, b) == 0 <==> OverdueRank(a) == OverdueRank(b)
  {}

  function StatusOne(level: Level): Exposure -> int {
    (e: Exposure) => if e.status == level then 1 else 0
  }

  lemma {:induction false} CountBounds(borrowers: seq<Exposure>, level: Level)
    ensures 0 <= Total(borrowers, StatusOne(level)) <= |borrowers|
  {
    if borrowers == [] {
    } else {
      CountBounds(borrowers[1..], level);
    }
  }

  /** The number of borrowers with a status. */
  function CountWith(borrowers: seq<Exposure>, level: Level): nat {
    CountBounds(borrowers, level);
    Total(borrowers, StatusOne(level))
  }

  function ExposureLevel(followUp: nat, highRisk: nat, critical: nat): Level {
    if critical > 0 then Critical
    else if highRisk > 0 then HighRisk
    else if followUp > 0 then FollowUp
    else Healthy
  }

  function Summarize(b: Borrowers): BranchOverdueExposure
    requires ValidMap(b)
  {
    var borrowers := Sort(ValuesOf(b), OverdueRank);
    var followUp, highRisk := CountWith(borrowers, FollowUp), CountWith(borrowers, HighRisk);
    var critical := CountWith(borrowers, Critical);
    var maxOverdueDays := if borrowers == [] then 0 else borrowers[0].overdueDays;
    BranchOverdueExposure(borrowers, followUp, highRisk, critical, |borrowers|, maxOverdueDays,
                          ExposureLevel(followUp, highRisk, critical),
                          OverdueReason(followUp, highRisk, critical, Max(0, maxOverdueDays)))
  }

  function ExposureOf(loans: seq<Loan>, branchId: string, paid: map<string, int>, today: int): BranchOverdueExposure {
    KeptValid(loans, branchId, paid, today);
    Summarize(Kept(loans, branchId, paid, today))
  }

  function ExposureFor(loans: seq<Loan>, paid: map<string, int>, today: int): string -> BranchOverdueExposure {
    (branchId: string) => ExposureOf(loans, branchId, paid, today)
  }

  // ---- the loops ----

  /** `buildOverdueExposureByBranch` */
  method BuildOverdueExposureByBranch(branches: seq<string>, loans: seq<Loan>, repayments: seq<Repayment>, today: int)
      returns (exposureByBranch: map<string, BranchOverdueExposure>)
    ensures forall b :: b in exposureByBranch <==> b in branches
    ensures forall b :: b in branches ==>
      exposureByBranch[b] == ExposureOf(loans, b, PaidByLoan(repayments, today), today)
  {
    var paidByLoan := SumPayments(repayments, today);
    var borrowersByBranch := CollectBorrowers(loans, paidByLoan, today);
    ghost var exposureOf := ExposureFor(loans, paidByLoan, today);
    exposureByBranch := map[];
    for i := 0 to |branches|
      invariant forall b :: b in exposureByBranch <==> b in branches[..i]
      invariant forall b :: b in exposureByBranch ==> exposureByBranch[b] == exposureOf(b)
    {
      var branch := branches[i];
      var exposure := SummarizeBranch(branch, borrowersByBranch, loans, paidByLoan, today);
      exposureByBranch := exposureByBranch[branch := exposure];
      assert branches[..i + 1] == branches[..i] + [branch];
    }
    assert branches[..|branches|] == branches;
  }

  /** The nested maps hold, per branch, the loan kept per customer. */
  ghost predicate HoldsKept(borrowersByBranch: map<string, Borrowers>, loans: seq<Loan>, paid: map<string, int>,
      today: int)
  {
    forall b :: Kept(loans, b, paid, today) == if b in borrowersByBranch then borrowersByBranch[b] else NO_BORROWERS
  }

  method SummarizeBranch(branch: string, borrowersByBranch: map<string, Borrowers>, ghost loans: seq<Loan>,
      ghost paid: map<string, int>, ghost today: int)
      returns (exposure: BranchOverdueExposure)
    requires HoldsKept(borrowersByBranch, loans, paid, today)
    ensures exposure == ExposureFor(loans, paid, today)(branch)
  {
    var borrowers := if branch in borrowersByBranch then borrowersByBranch[branch] else NO_BORROWERS;
    assert borrowers == Kept(loans, branch, paid, today);
    KeptValid(loans, branch, paid, today);
    exposure := Summarize(borrowers);
  }

  method SumPayments(repayments: seq<Repayment>, today: int) returns (paidByLoan: map<string, int>)
    ensures paidByLoan == PaidByLoan(repayments, today)
  {
    var todayEnd := EndOfDay(today);
    paidByLoan := map[];
    for i := 0 to |repayments|
      invariant paidByLoan == PaidByLoan(repayments[..i], today)
    {
      assert repayments[..i + 1][..i] == repayments[..i];
      var repayment := repayments[i];
      var paidAt := ParseDate(repayment.recordedAt);
      if paidAt.None? || paidAt.value > todayEnd || repayment.amount <= 0 {
        continue;
      }
      var sum := if repayment.loanId in paidByLoan then paidByLoan[repayment.loanId] else 0;
      paidByLoan := paidByLoan[repayment.loanId := sum + repayment.amount];
    }
    assert repayments[..|repayments|] == repayments;
  }

  /** The nested maps: per branch, per customer. */
  method CollectBorrowers(loans: seq<Loan>, paidByLoan: map<string, int>, today: int)
      returns (borrowersByBranch: map<string, Borrowers>)
    ensures HoldsKept(borrowersByBranch, loans, paidByLoan, today)
  {
    borrowersByBranch := map[];
    for i := 0 to |loans|
      invariant HoldsKept(borrowersByBranch, loans[..i], paidByLoan, today)
    {
      assert loans[..i + 1][..i] == loans[..i];
      var loan := loans[i];
      var paidAmount := if loan.id in paidByLoan then paidByLoan[loan.id] else loan.paidAmount;
      var exposure := ExposureForLoan(loan, paidAmount, today);
      if exposure.None? || exposure.value.status == Healthy {
        FlaggedExactlyWhenBehind(loan, PaidFigure(loan, paidByLoan), today);
        continue;
      }
      FlaggedExactlyWhenBehind(loan, PaidFigure(loan, paidByLoan), today);
      var branchBorrowers :=
        if loan.branchId in borrowersByBranch then borrowersByBranch[loan.branchId] else NO_BORROWERS;
      if loan.customerId !in branchBorrowers.entries
         || Severity(exposure.value.status) > Severity(branchBorrowers.entries[loan.customerId].status) {
        branchBorrowers := Put(branchBorrowers, loan.customerId, exposure.value);
      }
      borrowersByBranch := borrowersByBranch[loan.branchId := branchBorrowers];
    }
    assert loans[..|loans|] == loans;
  }

  // ---- what the counts count ----

  /** The customers whose worst flagged loan at the branch has that status. */
  ghost function CustomersAt(loans: seq<Loan>, branchId: string, paid: map<string, int>, today: int,
      level: Level): set<string>
  {
    set l | l in loans && WorstFor(loans, branchId, paid, today, l, level) :: l.customerId
  }

  ghost predicate WorstFor(loans: seq<Loan>, branchId: string, paid: map<string, int>, today: int, l: Loan,
      level: Level)
  {
    && FlaggedOf(l, branchId, l.customerId, paid, today) && Flag(l, paid, today).value.status == level
    && forall m :: m in loans && FlaggedOf(m, branchId, l.customerId, paid, today) ==>
         Severity(Flag(m, paid, today).value.status) <= Severity(level)
  }

  lemma KeptAtLevel(loans: seq<Loan>, branchId: string, paid: map<string, int>, today: int, level: Level)
    ensures var kept := Kept(loans, branchId, paid, today);
      KeysAt(kept, kept.order, level) == CustomersAt(loans, branchId, paid, today, level)
  {
    var kept := Kept(loans, branchId, paid, today);
    KeptValid(loans, branchId, paid, today);
    forall c ensures (c in kept.entries && kept.entries[c].status == level) <==>
      c in CustomersAt(loans, branchId, paid, today, level) {
      KeptIsFirstWorst(loans, branchId, paid, today, c);
      if c in kept.entries {
        var i: nat :| FirstWorst(loans, i, branchId, c, paid, today)
          && Flag(loans[i], paid, today) == Some(kept.entries[c]);
        FirstWorstLevel(loans, i, branchId, c, paid, today, level);
      } else if c in CustomersAt(loans, branchId, paid, today, level) {
        var l :| l in loans && WorstFor(loans, branchId, paid, today, l, level) && l.customerId == c;
        var j :| 0 <= j < |loans| && loans[j] == l;
        assert FlaggedFor(loans, j, branchId, c, paid, today);
      }
    }
  }

  lemma FirstWorstLevel(loans: seq<Loan>, i: nat, branchId: string, c: string, paid: map<string, int>, today: int,
      level: Level)
    requires FirstWorst(loans, i, branchId, c, paid, today)
    ensures Flag(loans[i], paid, today).value.status == level <==> c in CustomersAt(loans, branchId, paid, today, level)
  {
    FirstWorstIsWorst(loans, i, branchId, c, paid, today);
    if c in CustomersAt(loans, branchId, paid, today, level) {
      var l :| l in loans && WorstFor(loans, branchId, paid, today, l, level) && l.customerId == c;
      WorstIsJoin(Flag(loans[i], paid, today).value.status, level, level);
    }
  }

  lemma FirstWorstIsWorst(loans: seq<Loan>, i: nat, branchId: string, customerId: string, paid: map<string, int>,
      today: int)
    requires FirstWorst(loans, i, branchId, customerId, paid, today)
    ensures loans[i] in loans
    ensures WorstFor(loans, branchId, paid, today, loans[i], Flag(loans[i], paid, today).value.status)
    ensures forall m :: m in loans && FlaggedOf(m, branchId, customerId, paid, today) ==>
      Severity(Flag(m, paid, today).value.status) <= Severity(Flag(loans[i], paid, today).value.status)
  {
    forall m | m in loans && FlaggedOf(m, branchId, customerId, paid, today)
      ensures Severity(Flag(m, paid, today).value.status) <= Severity(Flag(loans[i], paid, today).value.status)
    {
      var j :| 0 <= j < |loans| && loans[j] == m;
      assert FlaggedFor(loans, j, branchId, customerId, paid, today);
      assert SeverityAt(loans, j, paid, today) <= SeverityAt(loans, i, paid, today);
    }
  }

  ghost function KeysAt(b: Borrowers, order: seq<string>, level: Level): set<string> {
    set c | c in order && c in b.entries && b.entries[c].status == level
  }

  lemma KeysAtFirst(b: Borrowers, order: seq<string>, level: Level)
    requires NoDup(order) && order != [] && order[0] in b.entries
    ensures |KeysAt(b, order, level)| == |KeysAt(b, order[1..], level)| + if b.entries[order[0]].status
      == level then 1 else 0
  {
    assert order == [order[0]] + order[1..];
    if b.entries[order[0]].status == level {
      assert KeysAt(b, order, level) == KeysAt(b, order[1..], level) + {order[0]};
    } else {
      assert KeysAt(b, order, level) == KeysAt(b, order[1..], level);
    }
  }

  lemma {:induction false} CountIsSetSize(b: Borrowers, order: seq<string>, values: seq<Exposure>, level: Level)
    requires NoDup(order) && |values| == |order|
    requires forall i :: 0 <= i < |order| ==> order[i] in b.entries && values[i] == b.entries[order[i]]
    ensures Total(values, StatusOne(level)) == |KeysAt(b, order, level)|
  {
    if order == [] {
    } else {
      CountIsSetSize(b, order[1..], values[1..], level);
      KeysAtFirst(b, order, level);
    }
  }

  lemma CountOfSummary(b: Borrowers, level: Level)
    requires ValidMap(b)
    ensures CountWith(Sort(ValuesOf(b), OverdueRank), level) == |KeysAt(b, b.order, level)|
  {
    SortContents(ValuesOf(b), OverdueRank);
    TotalPermuted(Sort(ValuesOf(b), OverdueRank), ValuesOf(b), StatusOne(level));
    CountIsSetSize(b, b.order, ValuesOf(b), level);
  }

  /** Each count is the number of customers whose worst loan has that status:
      a definition that does not depend on the order of the loans. */
  lemma CountsCountCustomers(loans: seq<Loan>, branchId: string, paid: map<string, int>, today: int)
    ensures var e := ExposureOf(loans, branchId, paid, today);
      && e.followUpCount == |CustomersAt(loans, branchId, paid, today, FollowUp)|
      && e.highRiskCount == |CustomersAt(loans, branchId, paid, today, HighRisk)|
      && e.criticalCount == |CustomersAt(loans, branchId, paid, today, Critical)|
  {
    var kept := Kept(loans, branchId, paid, today);
    KeptValid(loans, branchId, paid, today);
    CountOfSummary(kept, FollowUp);
    CountOfSummary(kept, HighRisk);
    CountOfSummary(kept, Critical);
    KeptAtLevel(loans, branchId, paid, today, FollowUp);
    KeptAtLevel(loans, branchId, paid, today, HighRisk);
    KeptAtLevel(loans, branchId, paid, today, Critical);
  }
}
