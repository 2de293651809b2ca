/** Loans, repayments and local days, as the branch analytics see them.  Money is
    whole units; a date is the millisecond it names on the local clock. */
module BranchModel {
  import opened Options
  import opened DateGroups
  import opened Texts

  /** A date field: not set (null), set to text that is no date, or a date. */
  datatype DateField = Absent | Malformed | At(ms: int)

  datatype Loan = Loan(
    id: string, customerId: string, branchId: string, status: string,
    balance: int, paidAmount: int, installmentAmount: int,
    paymentStartDate: DateField, disbursedAt: DateField, createdAt: DateField,
    dueDate: DateField, updatedAt: DateField, durationDays: Option<int>)

  datatype Repayment = Repayment(loanId: string, amount: int, recordedAt: DateField)

  const EXPECTING_REPAYMENT: set<string> :=
    {"SUBMITTED", "APPROVED", "DISBURSED", "CURRENT", "IN_ARREARS", "RESTRUCTURED"}

  /** `parseOptionalDate` */
  function ParseDate(field: DateField): Option<int> {
    if field.At? then Some(field.ms) else None
  }

  /** `a ?? b`: only a missing field is replaced, not one that fails to parse. */
  function OrElse(a: DateField, b: DateField): DateField {
    if a.Absent? then b else a
  }

  function PaymentStart(loan: Loan): Option<int> {
    ParseDate(OrElse(loan.paymentStartDate, OrElse(loan.disbursedAt, loan.createdAt)))
  }

  function UpperChar(c: char): char {
    if 'a' <= c <= 'z' then (c as int - 32) as char else c
  }

  function ToUpper(s: string): string {
    seq(|s|, i requires 0 <= i < |s| => UpperChar(s[i]))
  }

  function StartOfDay(t: int): int { DayOf(t) * DAY_MS }

  function EndOfDay(t: int): int { DayOf(t) * DAY_MS + DAY_MS - 1 }

  function FirstSet(a: DateField, b: DateField, c: DateField): DateField {
    if a != Absent then a else if b != Absent then b else c
  }

  /** The payment start is the first field of the three that is set; if it is set
      to text that is no date there is none, whatever the others say. */
  lemma FirstFieldSet(loan: Loan, ms: int)
    ensures PaymentStart(loan) == Some(ms) <==>
      FirstSet(loan.paymentStartDate, loan.disbursedAt, loan.createdAt) == At(ms)
  {}

  /** A day has 86,400,000 milliseconds, its own first and last included. */
  lemma DaySpan(t: int)
    ensures StartOfDay(t) <= t <= EndOfDay(t) == StartOfDay(t) + 86_399_999
    ensures StartOfDay(t) % 86_400_000 == 0
  {}

  /** The case of a status makes no difference: texts that are equal in lower
      case are equal in upper case, and conversely. */
  lemma CaseIrrelevant(s: string, t: string)
    ensures ToUpper(s) == ToUpper(t) <==> ToLower(s) == ToLower(t)
  {
    if |s| == |t| {
      forall i | 0 <= i < |s| ensures UpperChar(s[i]) == UpperChar(t[i]) <==> LowerChar(s[i]) == LowerChar(t[i]) {}
      assert forall i :: 0 <= i < |s| ==> ToUpper(s)[i] == UpperChar(s[i]) && ToLower(s)[i] == LowerChar(s[i]);
      assert forall i :: 0 <= i < |t| ==> ToUpper(t)[i] == UpperChar(t[i]) && ToLower(t)[i] == LowerChar(t[i]);
    } else {
      assert |ToUpper(s)| == |s| == |ToLower(s)| && |ToUpper(t)| == |t| == |ToLower(t)|;
    }
  }

  /** Only the 26 letters change, by the distance of the two alphabets. */
  lemma LettersChange(s: string, i: nat)
    requires i < |s|
    ensures var n, m := s[i] as int, ToUpper(s)[i] as int;
      m == if 97 <= n <= 122 then n - 32 else n
  {}
}
