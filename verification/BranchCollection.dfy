/** The daily repayment rates of a branch. */
module BranchCollection {
  import opened Options
  import opened Integers
  import opened Permutations
  import opened DateGroups
  import opened BranchModel
  import opened BranchOverdue

  /** The calendar day of a repayment; text that is no date gives a key of its own. */
  function DateKey(field: DateField): Option<int> {
    match ParseDate(field)
    case Some(ms) => Some(DayOf(ms))
    case None => None
  }

  type Slot = (string, Option<int>)
  type CollectedMap = map<Slot, set<string>>

  /** `new Map(loans.map((loan) => [loan.id, loan]))`: of equal ids the last one stays. */
  function LoanById(loans: seq<Loan>): map<string, Loan> {
    if loans == [] then map[] else LoanById(loans[..|loans| - 1])[loans[|loans| - 1].id := loans[|loans| - 1]]
  }

  function AddCollected(collected: CollectedMap, byId: map<string, Loan>, r: Repayment): CollectedMap {
    if r.amount <= 0 || r.loanId !in byId then collected
    else
      var key := (byId[r.loanId].branchId, DateKey(r.recordedAt));
      collected[key := (if key in collected then collected[key] else {}) + {r.loanId}]
  }

  function Collected(byId: map<string, Loan>, repayments: seq<Repayment>): CollectedMap {
    if repayments == [] then map[]
    else AddCollected(Collected(byId, repayments[..|repayments| - 1]), byId, repayments[|repayments| - 1])
  }

  predicate CollectsFor(byId: map<string, Loan>, r: Repayment, key: Slot) {
    r.amount > 0 && r.loanId in byId && byId[r.loanId].branchId == key.0 && DateKey(r.recordedAt) == key.1
  }

  /** The loop's map of sets against its meaning: who collected for a branch on a day. */
  lemma {:induction false} CollectedMeaning(byId: map<string, Loan>, repayments: seq<Repayment>, key: Slot)
    ensures key in Collected(byId, repayments) <==> exists r :: r in repayments && CollectsFor(byId, r, key)
    ensures key in Collected(byId, repayments) ==>
      Collected(byId, repayments)[key] == set r | r in repayments && CollectsFor(byId, r, key) :: r.loanId
  {
    if repayments == [] {
    } else {
      var n := |repayments| - 1;
      var front, last := repayments[..n], repayments[n];
      CollectedMeaning(byId, front, key);
      assert repayments == front + [last];
      if CollectsFor(byId, last, key) {
        assert last in repayments;
        assert (set r | r in repayments && CollectsFor(byId, r, key) :: r.loanId)
          == (set r | r in front && CollectsFor(byId, r, key) :: r.loanId) + {last.loanId};
      } else {
        assert (set r | r in repayments && CollectsFor(byId, r, key) :: r.loanId)
          == (set r | r in front && CollectsFor(byId, r, key) :: r.loanId);
      }
    }
  }

  lemma CollectedPermuted(byId: map<string, Loan>, a: seq<Repayment>, b: seq<Repayment>)
    requires multiset(a) == multiset(b)
    ensures Collected(byId, a) == Collected(byId, b)
  {
    forall r ensures r in a <==> r in b {
      SameMembers(a, b, r);
    }
    forall key: Slot ensures key in Collected(byId, a) <==> key in Collected(byId, b) {
      CollectedMeaning(byId, a, key);
      CollectedMeaning(byId, b, key);
    }
    forall key: Slot | key in Collected(byId, a) ensures Collected(byId, a)[key] == Collected(byId, b)[key] {
      CollectedMeaning(byId, a, key);
      CollectedMeaning(byId, b, key);
    }
  }

  /** Loan `i` is the last of its id, which is the one that repayments find. */
  predicate LastOfId(loans: seq<Loan>, i: nat) {
    i < |loans| && forall j :: i < j < |loans| ==> loans[j].id != loans[i].id
  }

  lemma {:induction false} LoanByIdMeaning(loans: seq<Loan>, id: string)
    ensures id in LoanById(loans) <==> exists l :: l in loans && l.id == id
    ensures id in LoanById(loans) ==>
      exists i: nat :: LastOfId(loans, i) && loans[i].id == id && LoanById(loans)[id] == loans[i]
    ensures forall i: nat :: LastOfId(loans, i) && loans[i].id == id ==>
      id in LoanById(loans) && LoanById(loans)[id] == loans[i]
  {
    if loans == [] {
    } else {
      var n := |loans| - 1;
      var front := loans[..n];
      LoanByIdMeaning(front, id);
      assert loans == front + [loans[n]];
      if loans[n].id == id {
        assert LastOfId(loans, n);
      } else {
        forall i: nat | i < n && loans[i].id == id ensures LastOfId(loans, i) <==> LastOfId(front, i) {
          LastOfPrefix(loans, i);
        }
      }
    }
  }

  lemma LastOfPrefix(loans: seq<Loan>, i: nat)
    requires i < |loans| - 1 && loans[i].id != loans[|loans| - 1].id
    ensures LastOfId(loans, i) <==> LastOfId(loans[..|loans| - 1], i)
  {
    var front := loans[..|loans| - 1];
    assert forall j :: i < j < |front| ==> front[j] == loans[j];
  }

  // ---- the order of the loans ----

  /** Loans that share an id are loans of one branch. */
  predicate BranchesAgree(loans: seq<Loan>) {
    forall l, m :: l in loans && m in loans && l.id == m.id ==> l.branchId == m.branchId
  }

  lemma {:induction false} CollectedByBranches(x: map<string, Loan>, y: map<string, Loan>, repayments: seq<Repayment>)
    requires x.Keys == y.Keys && forall id :: id in x ==> x[id].branchId == y[id].branchId
    ensures Collected(x, repayments) == Collected(y, repayments)
  {
    if repayments == [] {
    } else {
      CollectedByBranches(x, y, repayments[..|repayments| - 1]);
    }
  }

  lemma CollectedLoansPermuted(a: seq<Loan>, b: seq<Loan>, repayments: seq<Repayment>)
    requires BranchesAgree(a) && multiset(a) == multiset(b)
    ensures Collected(LoanById(a), repayments) == Collected(LoanById(b), repayments)
  {
    var x, y := LoanById(a), LoanById(b);
    forall l ensures l in a <==> l in b {
      SameMembers(a, b, l);
    }
    forall id ensures (id in x <==> id in y) && (id in x ==> x[id].branchId == y[id].branchId) {
      LoanByIdMeaning(a, id);
      LoanByIdMeaning(b, id);
    }
    CollectedByBranches(x, y, repayments);
  }

  function MovedToEnd(loans: seq<Loan>, i: nat): seq<Loan>
    requires i < |loans|
  {
    loans[..i] + loans[i + 1..] + [loans[i]]
  }

  lemma EndCollects(loans: seq<Loan>, i: nat)
    requires i < |loans|
    ensures multiset(MovedToEnd(loans, i)) == multiset(loans)
    ensures Collected(LoanById(MovedToEnd(loans, i)), [Repayment(loans[i].id, 1, At(0))]).Keys
      == {(loans[i].branchId, Some(0))}
  {
    var l, r := loans[i], Repayment(loans[i].id, 1, At(0));
    var byId := LoanById(MovedToEnd(loans, i));
    MultisetRemoveAt(loans, i);
    assert byId[l.id] == l;
    assert Collected(byId, []) == map[];
    assert [r][..0] == [];
    assert Collected(byId, [r]) == AddCollected(map[], byId, r);
  }

  ghost predicate CollectedOrderFree(loans: seq<Loan>) {
    forall b, repayments :: multiset(b) == multiset(loans) ==>
      Collected(LoanById(b), repayments) == Collected(LoanById(loans), repayments)
  }

  /** The order of the loans never matters to what was collected exactly when
      loans that share an id are loans of one branch, as with unique ids. */
  lemma CollectedOrderFreeIff(loans: seq<Loan>)
    ensures CollectedOrderFree(loans) <==> BranchesAgree(loans)
  {
    if BranchesAgree(loans) {
      forall b, repayments | multiset(b) == multiset(loans)
        ensures Collected(LoanById(b), repayments) == Collected(LoanById(loans), repayments)
      {
        CollectedLoansPermuted(loans, b, repayments);
      }
    } else {
      OrderMatters(loans);
    }
  }

  lemma OrderMatters(loans: seq<Loan>)
    requires !BranchesAgree(loans)
    ensures !CollectedOrderFree(loans)
  {
    var l, m :| l in loans && m in loans && l.id == m.id && l.branchId != m.branchId;
    var i :| 0 <= i < |loans| && loans[i] == l;
    var j :| 0 <= j < |loans| && loans[j] == m;
    EndCollects(loans, i);
    EndCollects(loans, j);
    var r := [Repayment(l.id, 1, At(0))];
    var x, y := Collected(LoanById(MovedToEnd(loans, i)), r), Collected(LoanById(MovedToEnd(loans, j)), r);
    assert (l.branchId, Some(0)) in x.Keys && (l.branchId, Some(0)) !in y.Keys;
    assert CollectedOrderFree(loans) ==> x == Collected(LoanById(loans), r) == y;
  }

  // ---- who paid ----

  function CollectedOn(collected: CollectedMap, branchId: string, day: int): set<string> {
    if (branchId, Some(day)) in collected then collected[(branchId, Some(day))] else {}
  }

  /** The loans of the branch with a positive repayment on the day; of loans that
      share an id only the last one counts. */
  ghost function LoansPaidOn(loans: seq<Loan>, repayments: seq<Repayment>, branchId: string, day: int): set<string> {
    set i: nat | i < |loans| && LastOfId(loans, i) && loans[i].branchId == branchId
                 && PaidOnDay(loans[i], repayments, day) :: loans[i].id
  }

  ghost predicate PaidOnDay(loan: Loan, repayments: seq<Repayment>, day: int) {
    exists r :: (&& r in repayments && r.loanId == loan.id && r.amount > 0
                 && r.recordedAt.At? && DayOf(r.recordedAt.ms) == day)
  }

  /** The collected count is the number of distinct loans of the branch with a
      positive repayment on that day. */
  lemma CollectedAreLoansPaid(loans: seq<Loan>, repayments: seq<Repayment>, branchId: string, day: int)
    ensures CollectedOn(Collected(LoanById(loans), repayments), branchId, day)
      == LoansPaidOn(loans, repayments, branchId, day)
  {
    var byId, key: Slot := LoanById(loans), (branchId, Some(day));
    var got := CollectedOn(Collected(byId, repayments), branchId, day);
    var want := LoansPaidOn(loans, repayments, branchId, day);
    CollectedMeaning(byId, repayments, key);
    forall id ensures id in got <==> id in want {
      LoanByIdMeaning(loans, id);
      if id in got {
        var r :| r in repayments && CollectsFor(byId, r, key) && r.loanId == id;
        var i: nat :| LastOfId(loans, i) && loans[i].id == id && byId[id] == loans[i];
        assert PaidOnDay(loans[i], repayments, day);
      }
      if id in want {
        var i: nat :| i < |loans| && LastOfId(loans, i) && loans[i].branchId == branchId
          && PaidOnDay(loans[i], repayments, day) && loans[i].id == id;
        var r :| r in repayments && r.loanId == id && r.amount > 0 && r.recordedAt.At? && DayOf(r.recordedAt.ms) == day;
        assert CollectsFor(byId, r, key);
      }
    }
  }

  predicate UniqueIds(loans: seq<Loan>) {
    forall i, j :: 0 <= i < j < |loans| ==> loans[i].id != loans[j].id
  }

  /** With unique ids every loan counts, and the order of the loans never matters. */
  lemma UniqueIdsSuffice(loans: seq<Loan>)
    requires UniqueIds(loans)
    ensures BranchesAgree(loans) && forall i: nat :: i < |loans| ==> LastOfId(loans, i)
  {}

  // ---- expected repayments ----

  /** `expectsRepaymentOnDate` */
  predicate ExpectedOnDate(loan: Loan, date: int) {
    var status := ToUpper(loan.status);
    var issuedAt := ParseDate(OrElse(loan.disbursedAt, loan.createdAt));
    var startAt := PaymentStart(loan);
    var dueAt := ParseDate(loan.dueDate);
    var closedAt := if status == "CLOSED" then ParseDate(loan.updatedAt) else None;
    var expectedEnd :=
      if closedAt.Some? && dueAt.Some? then Some(Min(closedAt.value, dueAt.value))
      else if closedAt.Some? then closedAt else dueAt;
    && issuedAt.Some? && startAt.Some?
    && (status in EXPECTING_REPAYMENT || status == "CLOSED")
    && issuedAt.value <= EndOfDay(date) && startAt.value <= EndOfDay(date)
    && (expectedEnd.Some? ==> StartOfDay(date) <= EndOfDay(expectedEnd.value))
    && (status == "CLOSED" || loan.balance > 0)
  }

  /** The status and the balance still ask for repayments. */
  predicate Repaying(loan: Loan) {
    || ToUpper(loan.status) == "CLOSED"
    || (loan.balance > 0
        && ToUpper(loan.status) in {"SUBMITTED", "APPROVED", "DISBURSED", "CURRENT", "IN_ARREARS", "RESTRUCTURED"})
  }

  /** The last day, if any: the due date, but for a closed loan no later than its last update. */
  function LastDay(loan: Loan): Option<int> {
    var due, closed := loan.dueDate, if ToUpper(loan.status) == "CLOSED" then loan.updatedAt else Absent;
    if !due.At? && !closed.At? then None
    else if !due.At? || (closed.At? && DayOf(closed.ms) < DayOf(due.ms)) then Some(DayOf(closed.ms))
    else Some(DayOf(due.ms))
  }

  /** A repayment of the loan is expected on the calendar day. */
  predicate ExpectedOnDay(loan: Loan, day: int) {
    var issued := FirstSet(loan.disbursedAt, loan.createdAt, Absent);
    && Repaying(loan)
    && issued.At? && DayOf(issued.ms) <= day
    && PaymentStart(loan).Some? && DayOf(PaymentStart(loan).value) <= day
    && (LastDay(loan).Some? ==> day <= LastDay(loan).value)
  }

  /** A loan counts as expected on exactly the calendar days from the later of
      its issue and its payment start up to its last day, both included: the
      comparisons of milliseconds amount to whole days. */
  lemma ExpectedWithinDays(loan: Loan, date: int)
    ensures ExpectedOnDate(loan, date) <==> ExpectedOnDay(loan, DayOf(date))
  {}

  function ExpectedOne(branchId: string, date: int): Loan -> int {
    (l: Loan) => if l.branchId == branchId && ExpectedOnDate(l, date) then 1 else 0
  }

  lemma {:induction false} ExpectedNonNegative(loans: seq<Loan>, branchId: string, date: int)
    ensures Total(loans, ExpectedOne(branchId, date)) >= 0
  {
    if loans == [] {
    } else {
      ExpectedNonNegative(loans[1..], branchId, date);
    }
  }

  function ExpectedCount(loans: seq<Loan>, branchId: string, date: int): nat {
    ExpectedNonNegative(loans, branchId, date);
    Total(loans, ExpectedOne(branchId, date))
  }

  function ExpectedBy(branchId: string, day: int): Loan -> bool {
    (l: Loan) => l.branchId == branchId && ExpectedOnDay(l, day)
  }

  /** The loans of the branch, by their position, from which a repayment is expected on the day. */
  ghost function LoansExpected(loans: seq<Loan>, branchId: string, day: int): set<nat> {
    Where(loans, ExpectedBy(branchId, day))
  }

  /** The expected count is the number of those loans. */
  lemma ExpectedCountsLoans(loans: seq<Loan>, branchId: string, date: int)
    ensures ExpectedCount(loans, branchId, date) == |LoansExpected(loans, branchId, DayOf(date))|
  {
    var f, p := ExpectedOne(branchId, date), ExpectedBy(branchId, DayOf(date));
    forall l | l in loans ensures f(l) == if p(l) then 1 else 0 {
      ExpectedWithinDays(l, date);
    }
    TotalCounts(loans, f, p);
  }

  // ---- rates, in tenths of a percent ----

  /** `Math.round(a / b)`: to the nearest, halves up. */
  function RoundDiv(a: int, b: int): (q: int)
    requires b > 0
    ensures 2 * a - b < 2 * (q * b) <= 2 * a + b
  {
    RoundBounds(2 * a + b, b);
    (2 * a + b) / (2 * b)
  }

  lemma RoundBounds(c: int, b: int)
    requires b > 0
    ensures var q := c / (2 * b); c - 2 * b < 2 * (q * b) <= c
  {}

  datatype DailyRate = DailyRate(day: int, expectedCount: nat, collectedCount: nat, rate: Option<int>)

  function RateOf(collectedCount: nat, expectedCount: nat): (rate: Option<int>)
    ensures rate.None? <==> expectedCount == 0
    ensures rate.Some? ==> 0 <= rate.value <= 1000
    ensures rate.Some? && collectedCount > expectedCount ==> rate.value == 1000
    ensures rate.Some? && collectedCount <= expectedCount ==>
      2000 * collectedCount - expectedCount < 2 * (rate.value * expectedCount) <= 2000 * collectedCount + expectedCount
  {
    if expectedCount > 0 then
      var q := RoundDiv(1000 * collectedCount, expectedCount);
      RoundSign(q, expectedCount, 1000 * collectedCount);
      RoundAbove(q, expectedCount, collectedCount);
      Some(Min(1000, q))
    else None
  }

  lemma RoundSign(q: int, b: int, a: int)
    requires b > 0 && a >= 0 && 2 * a - b < 2 * (q * b)
    ensures q >= 0
  {}

  lemma RoundAbove(q: int, expected: int, collected: int)
    requires expected > 0 && 2000 * collected - expected < 2 * (q * expected) <= 2000 * collected + expected
    ensures collected > expected ==> q >= 1000
    ensures collected <= expected ==> q <= 1000
  {
    MulSign(q - 1000, expected);
    assert (q - 1000) * expected == q * expected - 1000 * expected;
  }

  function RatesOf(daily: seq<DailyRate>): seq<int> {
    if daily == [] then []
    else RatesOf(daily[..|daily| - 1]) + if daily[|daily| - 1].rate.Some? then [daily[|daily| - 1].rate.value] else []
  }

  function Sum(rates: seq<int>): int {
    if rates == [] then 0 else Sum(rates[..|rates| - 1]) + rates[|rates| - 1]
  }

  function AverageRate(rates: seq<int>): Option<int> {
    if rates == [] then None else Some(RoundDiv(Sum(rates), |rates|))
  }

  lemma {:induction false} SumBounds(rates: seq<int>, lo: int, hi: int)
    requires forall i :: 0 <= i < |rates| ==> lo <= rates[i] <= hi
    ensures lo * |rates| <= Sum(rates) <= hi * |rates|
  {
    if rates == [] {
    } else {
      SumBounds(rates[..|rates| - 1], lo, hi);
      assert lo * |rates| == lo * (|rates| - 1) + lo;
      assert hi * |rates| == hi * (|rates| - 1) + hi;
    }
  }

  lemma RoundBetween(a: int, b: int, lo: int, hi: int)
    requires b > 0 && lo * b <= a <= hi * b
    ensures lo <= RoundDiv(a, b) <= hi
  {
    var q := RoundDiv(a, b);
    RoundDistance(q - lo, b, q, lo);
    RoundDistance(hi - q, b, hi, q);
  }

  lemma RoundDistance(d: int, b: int, x: int, y: int)
    requires b > 0 && d == x - y
    ensures x * b - y * b == d * b
    ensures d <= -1 ==> x * b - y * b <= -b
  {}

  /** The rounded average lies between any bounds that the rated days keep. */
  lemma AverageBetween(rates: seq<int>, lo: int, hi: int)
    requires rates != [] && forall i :: 0 <= i < |rates| ==> lo <= rates[i] <= hi
    ensures AverageRate(rates).Some? && lo <= AverageRate(rates).value <= hi
    ensures 2 * Sum(rates) - |rates| < 2 * (AverageRate(rates).value * |rates|) <= 2 * Sum(rates) + |rates|
  {
    SumBounds(rates, lo, hi);
    RoundBetween(Sum(rates), |rates|, lo, hi);
  }
}
