/** The sentences that explain why a branch needs attention, and the classifier
    that recognises them. */
module BranchReasons {
  import opened Options
  import opened Texts
  import opened BranchOverdue

  // ---- text ----

  function Digit(n: nat): char
    requires n < 10
  {
    (48 + n) as char
  }

  /** A count as the template literal writes it. */
  function Decimal(n: nat): string {
    if n < 10 then [Digit(n)] else Decimal(n / 10) + [Digit(n % 10)]
  }

  function Join(parts: seq<string>, separator: string): string {
    if parts == [] then ""
    else if |parts| == 1 then parts[0]
    else parts[0] + separator + Join(parts[1..], separator)
  }

  function Present(condition: bool, part: string): seq<string> {
    if condition then [part] else []
  }

  // ---- the sentences ----

  /** Rates are in tenths of a percent. */
  function CollectionReason(averageRate: Option<int>, ratedDays: nat): string {
    if averageRate.None? || ratedDays == 0 then "No expected repayments in the last 7 days."
    else if averageRate.value < 500 then "Repayment rate" + " is less than 50% over the last 7 days."
    else if averageRate.value <= 700 then "Repayment rate" + " is 70% or less over the last 7 days."
    else "Repayment rate" + " is above 70% over the last 7 days."
  }

  function CollectionLevel(averageRate: Option<int>): Level {
    if averageRate.None? then Healthy
    else if averageRate.value < 500 then Critical
    else if averageRate.value <= 700 then Attention
    else Healthy
  }

  function Plural(n: nat): string { if n == 1 then "" else "s" }

  function CountParts(followUp: nat, highRisk: nat, critical: nat): seq<string> {
    Present(critical > 0, Decimal(critical) + " critical")
    + Present(highRisk > 0, Decimal(highRisk) + " high risk")
    + Present(followUp > 0, Decimal(followUp) + " requiring" + " follow-up")
  }

  /** What follows the word "borrower". */
  function OverdueTail(total: nat, maxOverdueDays: nat): string {
    Join(TailPieces(total, maxOverdueDays), "")
  }

  function TailPieces(total: nat, days: nat): seq<string> {
    [Plural(total), " flagged by", " overdue", " exposure.", " Highest", " exposure", " is ", Decimal(days), " overdue",
     " day", Plural(days), "."]
  }

  function OverdueReason(followUp: nat, highRisk: nat, critical: nat, maxOverdueDays: nat): string {
    var parts := CountParts(followUp, highRisk, critical);
    if parts == [] then "No borrower overdue exposure alert."
    else Join(parts, ", ") + " borrower" + OverdueTail(followUp + highRisk + critical, maxOverdueDays)
  }

  function NotReconciledPieces(date: string): seq<string> {
    ["Branch did", " not ", "reconcil", "e ", date, "."]
  }

  function NotReconciled(date: string): string {
    Join(NotReconciledPieces(date), "")
  }

  function NotReportedPieces(date: string): seq<string> {
    ["Expected ", "daily report", " for ", date, " was not ", "submitted."]
  }

  function NotReported(date: string): string {
    Join(NotReportedPieces(date), "")
  }

  function MissingReason(missingReconciliation: bool, missingReport: bool, date: string): string {
    Join(Present(missingReconciliation, NotReconciled(date)) + Present(missingReport, NotReported(date)), " ")
  }

  // ---- the classifier ----

  datatype ReasonKind = CollectionKind | OverdueKind | DailyKind | OtherKind

  /** `attentionReasonKind` */
  function KindOf(reason: string): ReasonKind {
    var lower := ToLower(reason);
    if Contains(lower, "repayment rate") || Contains(lower, "collection rate") then CollectionKind
    else if Contains(lower, "overdue") || Contains(lower, "borrower") || Contains(lower, "follow-up")
         || Contains(lower, "high risk") || Contains(lower, "critical") then OverdueKind
    else if Contains(lower, "reconcil") || Contains(lower, "daily report") || Contains(lower, "report for") then
      DailyKind
    else OtherKind
  }

  // ---- what does not occur in a text ----

  /** In lower case, no `a` stands directly before a `b`, nor a `b` in front. */
  predicate Avoids(s: string, a: char, b: char) {
    && (s != "" ==> LowerChar(s[0]) != b)
    && (forall i :: 0 < i < |s| ==> !(LowerChar(s[i - 1]) == a && LowerChar(s[i]) == b))
  }

  lemma AvoidsConcat(s: string, t: string, a: char, b: char)
    requires Avoids(s, a, b) && Avoids(t, a, b)
    ensures Avoids(s + t, a, b)
  {}

  lemma AvoidsPattern(s: string, pattern: string, j: nat)
    requires 0 < j < |pattern| && Avoids(s, pattern[j - 1], pattern[j])
    ensures !Contains(ToLower(s), pattern)
  {}

  lemma ContainsPiece(s: string, piece: string, t: string, pattern: string)
    requires ToLower(piece) == pattern
    ensures Contains(ToLower(s + piece + t), pattern)
  {
    var lower := ToLower(s + piece + t);
    assert lower[|s|..][..|pattern|] == pattern by {
      forall k | 0 <= k < |pattern| ensures lower[|s| + k] == pattern[k] {
        assert (s + piece + t)[|s| + k] == piece[k];
        assert ToLower(piece)[k] == LowerChar(piece[k]);
      }
    }
    assert OccursAt(lower, pattern, |s|);
  }

  // ---- the collection sentences ----

  lemma CollectionSentence(rest: string)
    ensures KindOf("Repayment rate" + rest) == CollectionKind
  {
    assert ToLower("Repayment rate") == "repayment rate";
    assert "" + "Repayment rate" + rest == "Repayment rate" + rest;
    ContainsPiece("", "Repayment rate", rest, "repayment rate");
  }

  /** Every rate that lowers the level is explained by a sentence that is
      classified as being about repayments. */
  lemma CollectionReasonRecognised(averageRate: Option<int>, ratedDays: nat)
    requires CollectionLevel(averageRate) != Healthy && (averageRate.Some? ==> ratedDays > 0)
    ensures KindOf(CollectionReason(averageRate, ratedDays)) == CollectionKind
  {
    CollectionSentence(" is less than 50% over the last 7 days.");
    CollectionSentence(" is 70% or less over the last 7 days.");
  }

  /** The sentence says what made the level. */
  lemma CollectionReasonSays(averageRate: Option<int>, ratedDays: nat)
    ensures averageRate.None? || ratedDays == 0 ==>
      CollectionReason(averageRate, ratedDays) == "No expected repayments in the last 7 days."
    ensures averageRate.Some? && ratedDays > 0 ==>
      CollectionReason(averageRate, ratedDays) ==
        match CollectionLevel(averageRate)
        case Critical => "Repayment rate" + " is less than 50% over the last 7 days."
        case Attention => "Repayment rate" + " is 70% or less over the last 7 days."
        case _ => "Repayment rate" + " is above 70% over the last 7 days."
  {}

  /** The rates, in tenths of a percent, that make each level. */
  lemma CollectionLevels(averageRate: Option<int>)
    ensures CollectionLevel(averageRate) == Critical <==> averageRate.Some? && averageRate.value < 500
    ensures CollectionLevel(averageRate) == Attention <==> averageRate.Some? && 500 <= averageRate.value <= 700
    ensures CollectionLevel(averageRate) == Healthy <==> averageRate.None? || 700 < averageRate.value
  {}

  /** A higher rate never makes the level more severe. */
  lemma CollectionLevelMonotone(rate: int, more: int)
    requires rate <= more
    ensures Severity(CollectionLevel(Some(more))) <= Severity(CollectionLevel(Some(rate)))
  {}

  // ---- numbers and dates ----

  /** The characters of ISO dates and date-times. */
  predicate IsDateText(s: string) {
    forall i :: 0 <= i < |s| ==> '0' <= s[i] <= '9' || s[i] in {'-', 'T', 'Z', ':', '.', '+'}
  }

  lemma {:induction false} DecimalIsDigits(n: nat)
    ensures IsDateText(Decimal(n))
  {
    if n < 10 {
    } else {
      DecimalIsDigits(n / 10);
    }
  }

  lemma DateTextAvoids(s: string, a: char, b: char)
    requires IsDateText(s) && 'a' <= b <= 'y' && b != 't'
    ensures Avoids(s, a, b)
  {}

  lemma {:induction false} JoinAvoids(parts: seq<string>, separator: string, a: char, b: char)
    requires Avoids(separator, a, b) && forall i :: 0 <= i < |parts| ==> Avoids(parts[i], a, b)
    ensures Avoids(Join(parts, separator), a, b)
  {
    if |parts| <= 1 {
    } else {
      JoinAvoids(parts[1..], separator, a, b);
      AvoidsConcat(parts[0], separator, a, b);
      AvoidsConcat(parts[0] + separator, Join(parts[1..], separator), a, b);
    }
  }

  // ---- the overdue sentence ----

  /** The two letter pairs that rule out both collection patterns. */
  predicate CollectionPair(a: char, b: char) {
    (a == 'y' && b == 'm') || (a == 'o' && b == 'n')
  }

  lemma CountPartsAvoid(followUp: nat, highRisk: nat, critical: nat, a: char, b: char)
    requires CollectionPair(a, b)
    ensures forall i :: 0 <= i < |CountParts(followUp, highRisk, critical)| ==>
      Avoids(CountParts(followUp, highRisk, critical)[i], a, b)
  {
    CountWordsAvoid(a, b);
    CountPartAvoids(critical, " critical", a, b);
    CountPartAvoids(highRisk, " high risk", a, b);
    CountPartAvoids(followUp, " requiring", a, b);
    AvoidsConcat(Decimal(followUp) + " requiring", " follow-up", a, b);
  }

  lemma CountWordsAvoid(a: char, b: char)
    requires CollectionPair(a, b)
    ensures Avoids(" critical", a, b) && Avoids(" high risk", a, b) && Avoids(" requiring", a, b)
    ensures Avoids(" follow-up", a, b)
  {}

  lemma CountPartAvoids(n: nat, words: string, a: char, b: char)
    requires CollectionPair(a, b) && Avoids(words, a, b)
    ensures Avoids(Decimal(n) + words, a, b)
  {
    DecimalIsDigits(n);
    DateTextAvoids(Decimal(n), a, b);
    AvoidsConcat(Decimal(n), words, a, b);
  }

  lemma OverdueTailAvoids(total: nat, days: nat, a: char, b: char)
    requires CollectionPair(a, b)
    ensures Avoids(OverdueTail(total, days), a, b)
  {
    DecimalIsDigits(days);
    DateTextAvoids(Decimal(days), a, b);
    var pieces := TailPieces(total, days);
    forall i | 0 <= i < |pieces| ensures Avoids(pieces[i], a, b) {
      assert i < 12;
    }
    JoinAvoids(pieces, "", a, b);
  }

  lemma OverdueReasonAvoids(followUp: nat, highRisk: nat, critical: nat, days: nat, a: char, b: char)
    requires followUp + highRisk + critical > 0 && CollectionPair(a, b)
    ensures Avoids(OverdueReason(followUp, highRisk, critical, days), a, b)
  {
    var parts := CountParts(followUp, highRisk, critical);
    CountPartsAvoid(followUp, highRisk, critical, a, b);
    JoinAvoids(parts, ", ", a, b);
    OverdueTailAvoids(followUp + highRisk + critical, days, a, b);
    BorrowerAvoids(Join(parts, ", "), OverdueTail(followUp + highRisk + critical, days), a, b);
  }

  lemma BorrowerAvoids(front: string, tail: string, a: char, b: char)
    requires Avoids(front, a, b) && Avoids(tail, a, b) && CollectionPair(a, b)
    ensures Avoids(front + " borrower" + tail, a, b)
  {}

  /** Whatever the counts are, the overdue sentence is classified as overdue. */
  lemma OverdueReasonRecognised(followUp: nat, highRisk: nat, critical: nat, days: nat)
    requires followUp + highRisk + critical > 0
    ensures KindOf(OverdueReason(followUp, highRisk, critical, days)) == OverdueKind
  {
    OverdueReasonAvoids(followUp, highRisk, critical, days, 'y', 'm');
    OverdueReasonAvoids(followUp, highRisk, critical, days, 'o', 'n');
    var front := Join(CountParts(followUp, highRisk, critical), ", ");
    OverdueSentence(front, OverdueTail(followUp + highRisk + critical, days));
  }

  lemma OverdueSentence(front: string, tail: string)
    requires Avoids(front + " borrower" + tail, 'y', 'm') && Avoids(front + " borrower" + tail, 'o', 'n')
    ensures KindOf(front + " borrower" + tail) == OverdueKind
  {
    AvoidsPattern(front + " borrower" + tail, "repayment rate", 5);
    AvoidsPattern(front + " borrower" + tail, "collection rate", 9);
    assert front + " borrower" + tail == (front + " ") + "borrower" + tail;
    assert ToLower("borrower") == "borrower";
    ContainsPiece(front + " ", "borrower", tail, "borrower");
  }

  // ---- the numbers in the sentence ----

  /** The number that a text of digits stands for. */
  function NumberIn(digits: string): int {
    if digits == "" then 0 else 10 * NumberIn(digits[..|digits| - 1]) + digits[|digits| - 1] as int - '0' as int
  }

  /** A count is written so that it can be read back. */
  lemma {:induction false} DecimalReadsBack(n: nat)
    ensures Decimal(n) != "" && NumberIn(Decimal(n)) == n
  {
    if n < 10 {
      assert [Digit(n)][..0] == "";
    } else {
      DecimalReadsBack(n / 10);
      assert (Decimal(n / 10) + [Digit(n % 10)])[..|Decimal(n / 10)|] == Decimal(n / 10);
    }
  }

  /** The counts stand in the sentence from the most severe to the least, each
      with its words, and zero counts are left out. */
  lemma CountsInSentence(followUp: nat, highRisk: nat, critical: nat)
    ensures var c, h, f := Decimal(critical) + " critical", Decimal(highRisk) + " high risk",
                           Decimal(followUp) + " requiring" + " follow-up";
      Join(CountParts(followUp, highRisk, critical), ", ") ==
        if critical > 0 && highRisk > 0 && followUp > 0 then c + ", " + (h + ", " + f)
        else if critical > 0 && highRisk > 0 then c + ", " + h
        else if critical > 0 && followUp > 0 then c + ", " + f
        else if highRisk > 0 && followUp > 0 then h + ", " + f
        else if critical > 0 then c
        else if highRisk > 0 then h
        else if followUp > 0 then f
        else ""
  {
    var c, h, f := Decimal(critical) + " critical", Decimal(highRisk) + " high risk",
                   Decimal(followUp) + " requiring" + " follow-up";
    JoinPresent(critical > 0, c, highRisk > 0, h, followUp > 0, f);
  }

  lemma JoinPresent(a: bool, x: string, b: bool, y: string, c: bool, z: string)
    ensures Join(Present(a, x) + Present(b, y) + Present(c, z), ", ") ==
      if a && b && c then x + ", " + (y + ", " + z)
      else if a && b then x + ", " + y
      else if a && c then x + ", " + z
      else if b && c then y + ", " + z
      else if a then x
      else if b then y
      else if c then z
      else ""
  {
    var parts := Present(a, x) + Present(b, y) + Present(c, z);
    if a && b && c {
      assert parts == [x, y, z];
      JoinThree(x, y, z);
    } else if |parts| == 2 {
      assert parts == [parts[0], parts[1]];
      JoinTwo(parts[0], parts[1]);
    } else if |parts| == 1 {
      assert parts == [parts[0]];
    }
  }

  lemma JoinTwo(x: string, y: string)
    ensures Join([x, y], ", ") == x + ", " + y
  {
    assert [x, y][1..] == [y];
  }

  lemma JoinThree(x: string, y: string, z: string)
    ensures Join([x, y, z], ", ") == x + ", " + (y + ", " + z)
  {
    assert [x, y, z][1..] == [y, z];
    JoinTwo(y, z);
  }

  lemma JoinPlain(first: string, rest: seq<string>)
    requires rest != []
    ensures Join([first] + rest, "") == first + Join(rest, "")
  {
    assert ([first] + rest)[1..] == rest;
  }

  lemma {:induction false} JoinSplits(s: seq<string>, t: seq<string>)
    ensures Join(s + t, "") == Join(s, "") + Join(t, "")
  {
    if s == [] {
      assert s + t == t;
    } else if |s| == 1 {
      if t == [] {
        assert s + t == s;
      } else {
        JoinPlain(s[0], t);
        assert s + t == [s[0]] + t;
      }
    } else {
      assert s == [s[0]] + s[1..] && s + t == [s[0]] + (s[1..] + t);
      JoinPlain(s[0], s[1..]);
      JoinPlain(s[0], s[1..] + t);
      JoinSplits(s[1..], t);
    }
  }

  lemma JoinOfThree(x: string, y: string, z: string)
    ensures Join([x, y, z], "") == x + y + z
  {
    JoinPlain(y, [z]);
    JoinPlain(x, [y, z]);
    assert [y] + [z] == [y, z] && [x] + [y, z] == [x, y, z];
    assert x + (y + z) == x + y + z;
  }

  lemma FlaggedText()
    ensures Join([" flagged by", " overdue", " exposure."], "") == " flagged by overdue exposure."
  {
    JoinOfThree(" flagged by", " overdue", " exposure.");
  }

  lemma HighestText()
    ensures Join([" Highest", " exposure", " is "], "") == " Highest exposure is "
  {
    JoinOfThree(" Highest", " exposure", " is ");
  }

  lemma JoinParts(a: seq<string>, b: seq<string>, c: seq<string>, d: seq<string>, e: seq<string>)
    ensures Join(a + b + c + d + e, "") == Join(a, "") + Join(b, "") + Join(c, "") + Join(d, "") + Join(e, "")
  {
    JoinSplits(a, b);
    JoinSplits(a + b, c);
    JoinSplits(a + b + c, d);
    JoinSplits(a + b + c + d, e);
  }

  lemma TailInParts(total: nat, days: nat)
    ensures TailPieces(total, days) == [Plural(total)] + [" flagged by", " overdue", " exposure."]
      + [" Highest", " exposure", " is "] + [Decimal(days), " overdue", " day"] + [Plural(days), "."]
  {}

  lemma PluralEnding(n: nat)
    ensures Plural(n) == (if n == 1 then "" else "s")
    ensures Join([Plural(n), "."], "") == if n == 1 then "." else "s."
  {
    JoinPlain(Plural(n), ["."]);
    assert [Plural(n)] + ["."] == [Plural(n), "."];
    assert "s" + "." == "s." && "" + "." == ".";
  }

  /** What follows the word "borrower": its plural, the days and their plural. */
  lemma TailText(total: nat, days: nat)
    ensures OverdueTail(total, days) ==
      (if total == 1 then "" else "s") + " flagged by overdue exposure." + " Highest exposure is "
      + (Decimal(days) + " overdue" + " day") + (if days == 1 then "." else "s.")
  {
    TailInParts(total, days);
    JoinParts([Plural(total)], [" flagged by", " overdue", " exposure."], [" Highest", " exposure", " is "],
      [Decimal(days), " overdue", " day"], [Plural(days), "."]);
    FlaggedText();
    HighestText();
    JoinOfThree(Decimal(days), " overdue", " day");
    PluralEnding(total);
    PluralEnding(days);
  }

  /** The whole sentence, from its counts. */
  lemma OverdueReasonText(followUp: nat, highRisk: nat, critical: nat, days: nat)
    ensures OverdueReason(followUp, highRisk, critical, days) ==
      if followUp + highRisk + critical == 0 then "No borrower overdue exposure alert."
      else
        Join(CountParts(followUp, highRisk, critical), ", ") + " borrower"
        + OverdueTail(followUp + highRisk + critical, days)
  {}

  // ---- which words decide ----

  ghost predicate HasWord(text: string, words: set<string>) {
    exists w :: w in words && Contains(ToLower(text), w)
  }

  const COLLECTION_WORDS: set<string> := {"repayment rate", "collection rate"}
  const OVERDUE_WORDS: set<string> := {"overdue", "borrower", "follow-up", "high risk", "critical"}
  const DAILY_WORDS: set<string> := {"reconcil", "daily report", "report for"}

  /** The kind of any text: collection words come first, then overdue words, then
      those of the daily close, in whatever case. */
  lemma KindIff(text: string)
    ensures KindOf(text) ==
      if HasWord(text, COLLECTION_WORDS) then CollectionKind
      else if HasWord(text, OVERDUE_WORDS) then OverdueKind
      else if HasWord(text, DAILY_WORDS) then DailyKind
      else OtherKind
  {
    HasEither(text, COLLECTION_WORDS, {"repayment rate"}, "collection rate");
    HasOne(text, "repayment rate");
    HasEither(text, OVERDUE_WORDS, {"overdue", "borrower", "follow-up", "high risk"}, "critical");
    HasEither(text, {"overdue", "borrower", "follow-up", "high risk"}, {"overdue", "borrower", "follow-up"},
      "high risk");
    HasEither(text, {"overdue", "borrower", "follow-up"}, {"overdue", "borrower"}, "follow-up");
    HasEither(text, {"overdue", "borrower"}, {"overdue"}, "borrower");
    HasOne(text, "overdue");
    HasEither(text, DAILY_WORDS, {"reconcil", "daily report"}, "report for");
    HasEither(text, {"reconcil", "daily report"}, {"reconcil"}, "daily report");
    HasOne(text, "reconcil");
  }

  lemma HasOne(text: string, word: string)
    ensures HasWord(text, {word}) <==> Contains(ToLower(text), word)
  {
    assert word in {word};
  }

  lemma HasEither(text: string, words: set<string>, fewer: set<string>, word: string)
    requires words == fewer + {word}
    ensures HasWord(text, words) <==> HasWord(text, fewer) || Contains(ToLower(text), word)
  {
    if HasWord(text, fewer) {
      var w :| w in fewer && Contains(ToLower(text), w);
      assert w in words;
    }
    assert word in words;
  }
}
