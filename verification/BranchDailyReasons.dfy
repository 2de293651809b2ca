/** The sentences about a missing daily close, and how they are classified. */
module BranchDailyReasons {
  import opened Texts
  import opened BranchReasons

  /** A letter pair of each pattern that is looked for before the daily ones. */
  predicate EarlierPair(a: char, b: char) {
    || (a == 'y' && b == 'm')  // repayment rate
    || (a == 'l' && b == 'l')  // collection rate, follow-up
    || (a == 'o' && b == 'v')  // overdue
    || (a == 'b' && b == 'o')  // borrower
    || (a == 'g' && b == 'h')  // high risk
    || (a == 'r' && b == 'i')  // critical
  }

  lemma ReconcileWordsAvoid(a: char, b: char)
    requires EarlierPair(a, b)
    ensures Avoids("Branch did", a, b) && Avoids(" not ", a, b) && Avoids("reconcil", a, b) && Avoids("e ", a, b)
    ensures Avoids(".", a, b) && Avoids(" ", a, b)
  {}

  lemma ReportWordsAvoid(a: char, b: char)
    requires EarlierPair(a, b)
    ensures Avoids("Expected ", a, b) && Avoids("daily report", a, b)
  {}

  lemma SubmitWordsAvoid(a: char, b: char)
    requires EarlierPair(a, b)
    ensures Avoids(" for ", a, b) && Avoids(" was not ", a, b) && Avoids("submitted.", a, b)
  {}

  // ---- where the words of another check cannot straddle ----

  /** Position `h` of a word is no full stop, and a blank there stands neither
      first nor last, nor after an `e` or `r`, nor before a `w`. */
  predicate SeparableAt(word: string, h: nat)
    requires h < |word|
  {
    && word[h] != '.'
    && (word[h] == ' ' ==> 0 < h < |word| - 1 && word[h - 1] != 'e' && word[h - 1] != 'r' && word[h + 1] != 'w')
  }

  predicate Separable(word: string) {
    word != "" && forall h :: 0 <= h < |word| ==> SeparableAt(word, h)
  }

  /** Behind "... reconcile " or "... report for " no such word straddles. */
  lemma SplitBehindBlank(s: string, t: string, word: string)
    requires Separable(word) && |s| >= 2 && s[|s| - 1] == ' ' && (s[|s| - 2] == 'e' || s[|s| - 2] == 'r')
    ensures Contains(s + t, word) <==> Contains(s, word) || Contains(t, word)
  {
    forall i | 0 <= i < |s| && |s| < i + |word| ensures !OccursAt(s + t, word, i) {
      if OccursAt(s + t, word, i) {
        var h := |s| - 1 - i;
        assert (s + t)[|s| - 1] == s[|s| - 1] && (s + t)[|s| - 2] == s[|s| - 2];
        OccursChar(s + t, word, i, h);
        assert SeparableAt(word, h);
        if h > 0 {
          OccursChar(s + t, word, i, h - 1);
        }
        assert false;
      }
    }
    ContainsSplit(s, t, word);
  }

  /** Nor around a full stop. */
  lemma SplitAtStop(s: string, t: string, word: string)
    requires Separable(word) && ((s != "" && s[|s| - 1] == '.') || (t != "" && t[0] == '.'))
    ensures Contains(s + t, word) <==> Contains(s, word) || Contains(t, word)
  {
    forall i | 0 <= i < |s| && |s| < i + |word| ensures !OccursAt(s + t, word, i) {
      assert SeparableAt(word, |s| - 1 - i) && SeparableAt(word, |s| - i);
      if OccursAt(s + t, word, i) {
        OccursChar(s + t, word, i, |s| - 1 - i);
        OccursChar(s + t, word, i, |s| - i);
        assert false;
      }
    }
    ContainsSplit(s, t, word);
  }

  /** Nor in front of " was not ...". */
  lemma SplitBeforeWas(s: string, t: string, word: string)
    requires Separable(word) && |t| >= 2 && t[0] == ' ' && t[1] == 'w'
    ensures Contains(s + t, word) <==> Contains(s, word) || Contains(t, word)
  {
    forall i | 0 <= i < |s| && |s| < i + |word| ensures !OccursAt(s + t, word, i) {
      if OccursAt(s + t, word, i) {
        var h := |s| - i;
        assert (s + t)[|s|] == t[0] && (s + t)[|s| + 1] == t[1];
        OccursChar(s + t, word, i, h);
        assert SeparableAt(word, h);
        OccursChar(s + t, word, i, h + 1);
        assert false;
      }
    }
    ContainsSplit(s, t, word);
  }

  /** Nor behind a single blank. */
  lemma SplitBehindOne(t: string, word: string)
    requires Separable(word)
    ensures Contains(" " + t, word) <==> Contains(" ", word) || Contains(t, word)
  {
    assert (" " + t)[0..][0] == ' ' && SeparableAt(word, 0);
    ContainsSplit(" ", t, word);
  }

  // ---- the words of the earlier checks in a sentence ----

  predicate EarlierWord(word: string, j: nat) {
    0 < j < |word| && EarlierPair(word[j - 1], word[j]) && Separable(word)
  }

  const RECONCILED_FRONT: string := "Branch did" + " not " + "reconcil" + "e "
  const REPORTED_FRONT: string := "Expected " + "daily report" + " for "
  const REPORTED_BACK: string := " was not " + "submitted."

  lemma FrontsAvoid(word: string, j: nat)
    requires EarlierWord(word, j)
    ensures !Contains(ToLower(RECONCILED_FRONT), word) && !Contains(ToLower(REPORTED_FRONT), word)
    ensures !Contains(ToLower(REPORTED_BACK), word)
    ensures !Contains(".", word) && !Contains(" ", word)
  {
    var a, b := word[j - 1], word[j];
    ReconcileWordsAvoid(a, b);
    ReportWordsAvoid(a, b);
    SubmitWordsAvoid(a, b);
    AvoidsConcat("Branch did", " not ", a, b);
    AvoidsConcat("Branch did" + " not ", "reconcil", a, b);
    AvoidsConcat("Branch did" + " not " + "reconcil", "e ", a, b);
    AvoidsPattern(RECONCILED_FRONT, word, j);
    AvoidsConcat("Expected ", "daily report", a, b);
    AvoidsConcat("Expected " + "daily report", " for ", a, b);
    AvoidsPattern(REPORTED_FRONT, word, j);
    AvoidsConcat(" was not ", "submitted.", a, b);
    AvoidsPattern(REPORTED_BACK, word, j);
    AvoidsPattern(".", word, j);
    AvoidsPattern(" ", word, j);
    assert ToLower(".") == "." && ToLower(" ") == " ";
  }

  lemma SentencesInParts(date: string)
    ensures NotReconciled(date) == RECONCILED_FRONT + (date + ".")
    ensures NotReported(date) == REPORTED_FRONT + (date + REPORTED_BACK)
  {
    JoinSix("Branch did", " not ", "reconcil", "e ", date, ".");
    JoinSix("Expected ", "daily report", " for ", date, " was not ", "submitted.");
  }

  lemma JoinSix(a: string, b: string, c: string, d: string, e: string, f: string)
    ensures Join([a, b, c, d, e, f], "") == (a + b + c + d) + (e + f) == (a + b + c) + (d + (e + f))
  {
    assert [a] + [b, c, d, e, f] == [a, b, c, d, e, f];
    assert [b] + [c, d, e, f] == [b, c, d, e, f];
    assert [c] + [d, e, f] == [c, d, e, f];
    assert [d] + [e, f] == [d, e, f];
    assert [e] + [f] == [e, f];
    JoinPlain(a, [b, c, d, e, f]);
    JoinPlain(b, [c, d, e, f]);
    JoinPlain(c, [d, e, f]);
    JoinPlain(d, [e, f]);
    JoinPlain(e, [f]);
    assert a + (b + (c + (d + (e + f)))) == (a + b + c) + (d + (e + f));
    assert (a + b + c) + (d + (e + f)) == (a + b + c + d) + (e + f);
  }

  lemma NotReconciledContains(date: string, word: string, j: nat)
    requires EarlierWord(word, j)
    ensures Contains(ToLower(NotReconciled(date)), word) <==> Contains(ToLower(date), word)
  {
    SentencesInParts(date);
    FrontsAvoid(word, j);
    LowerConcat(RECONCILED_FRONT, date + ".");
    LowerConcat(date, ".");
    assert ToLower(".") == ".";
    LowerEnds(RECONCILED_FRONT);
    SplitBehindBlank(ToLower(RECONCILED_FRONT), ToLower(date + "."), word);
    SplitAtStop(ToLower(date), ".", word);
  }

  lemma NotReportedContains(date: string, word: string, j: nat)
    requires EarlierWord(word, j)
    ensures Contains(ToLower(NotReported(date)), word) <==> Contains(ToLower(date), word)
  {
    SentencesInParts(date);
    FrontsAvoid(word, j);
    LowerConcat(REPORTED_FRONT, date + REPORTED_BACK);
    LowerConcat(date, REPORTED_BACK);
    LowerEnds(REPORTED_FRONT);
    SplitBehindBlank(ToLower(REPORTED_FRONT), ToLower(date + REPORTED_BACK), word);
    SplitBeforeWas(ToLower(date), ToLower(REPORTED_BACK), word);
  }

  lemma LowerEnds(front: string)
    requires front == RECONCILED_FRONT || front == REPORTED_FRONT
    ensures var s := ToLower(front); |s| >= 2 && s[|s| - 1] == ' ' && (s[|s| - 2] == 'e' || s[|s| - 2] == 'r')
  {}

  /** A daily-close sentence contains a word of an earlier check exactly when its date does. */
  lemma MissingReasonWord(r: bool, p: bool, date: string, word: string, j: nat)
    requires EarlierWord(word, j) && (r || p)
    ensures Contains(ToLower(MissingReason(r, p, date)), word) <==> Contains(ToLower(date), word)
  {
    NotReconciledContains(date, word, j);
    NotReportedContains(date, word, j);
    if r && p {
      BothSentences(date, word, j);
    } else {
      assert MissingReason(r, p, date) == if r then NotReconciled(date) else NotReported(date);
    }
  }

  lemma BothSentences(date: string, word: string, j: nat)
    requires EarlierWord(word, j)
    ensures Contains(ToLower(MissingReason(true, true, date)), word) <==>
      Contains(ToLower(NotReconciled(date)), word) || Contains(ToLower(NotReported(date)), word)
  {
    var s, t := NotReconciled(date), NotReported(date);
    assert Present(true, s) + Present(true, t) == [s, t] && [s, t][1..] == [t];
    assert Join([s, t], " ") == s + (" " + t);
    SentencesInParts(date);
    FrontsAvoid(word, j);
    LowerConcat(s, " " + t);
    LowerConcat(" ", t);
    assert ToLower(" ") == " ";
    SplitAtStop(ToLower(s), ToLower(" " + t), word);
    SplitBehindOne(ToLower(t), word);
  }

  lemma EarlierWords()
    ensures EarlierWord("repayment rate", 5) && EarlierWord("collection rate", 3) && EarlierWord("overdue", 1)
    ensures EarlierWord("borrower", 1) && EarlierWord("follow-up", 3) && EarlierWord("high risk", 3)
    ensures EarlierWord("critical", 2)
  {}

  /** What the classifier takes a daily-close sentence with this date for. */
  function KindWithDate(date: string): ReasonKind {
    if KindOf(date) == CollectionKind || KindOf(date) == OverdueKind then KindOf(date) else DailyKind
  }

  /** A sentence about a missing daily close is classified as daily, for every
      text in the place of the date, unless that text would itself be classified
      as being about collection or overdue loans. */
  lemma MissingReasonKind(missingReconciliation: bool, missingReport: bool, date: string)
    requires missingReconciliation || missingReport
    ensures KindOf(MissingReason(missingReconciliation, missingReport, date)) == KindWithDate(date)
  {
    var r, p := missingReconciliation, missingReport;
    EarlierWords();
    MissingReasonWord(r, p, date, "repayment rate", 5);
    MissingReasonWord(r, p, date, "collection rate", 3);
    MissingReasonWord(r, p, date, "overdue", 1);
    MissingReasonWord(r, p, date, "borrower", 1);
    MissingReasonWord(r, p, date, "follow-up", 3);
    MissingReasonWord(r, p, date, "high risk", 3);
    MissingReasonWord(r, p, date, "critical", 2);
    MissingReasonContains(r, p, date);
  }

  /** With "overdue" in the place of the date it is taken for an overdue loan. */
  lemma MisleadingDate()
    ensures KindOf(MissingReason(true, true, "overdue")) == OverdueKind
  {
    var word := "overdue";
    assert ToLower(word) == word;
    forall long: string | |long| > 7 ensures !Contains(word, long) {
      assert forall i :: 0 <= i <= |word| ==> !OccursAt(word, long, i);
    }
    assert word[0..] == word && OccursAt(word, word, 0);
    MissingReasonKind(true, true, word);
  }

  lemma DateAvoids(date: string, word: string, j: nat)
    requires IsDateText(date) && 0 < j < |word| && EarlierPair(word[j - 1], word[j])
    ensures !Contains(ToLower(date), word)
  {
    DateTextAvoids(date, word[j - 1], word[j]);
    AvoidsPattern(date, word, j);
  }

  /** ISO dates and date-times are never in the way. */
  lemma MissingReasonRecognised(missingReconciliation: bool, missingReport: bool, date: string)
    requires (missingReconciliation || missingReport) && IsDateText(date)
    ensures KindOf(MissingReason(missingReconciliation, missingReport, date)) == DailyKind
  {
    EarlierWords();
    DateAvoids(date, "repayment rate", 5);
    DateAvoids(date, "collection rate", 3);
    DateAvoids(date, "overdue", 1);
    DateAvoids(date, "borrower", 1);
    DateAvoids(date, "follow-up", 3);
    DateAvoids(date, "high risk", 3);
    DateAvoids(date, "critical", 2);
    MissingReasonKind(missingReconciliation, missingReport, date);
  }

  lemma MissingReasonContains(r: bool, p: bool, date: string)
    requires r || p
    ensures Contains(ToLower(MissingReason(r, p, date)), if r then "reconcil" else "daily report")
  {
    var sentences := Present(r, NotReconciled(date)) + Present(p, NotReported(date));
    if r {
      assert ToLower("reconcil") == "reconcil";
      PieceInside(NotReconciledPieces(date), 2);
      SentenceInside(sentences, "reconcil");
    } else {
      assert ToLower("daily report") == "daily report";
      PieceInside(NotReportedPieces(date), 1);
      SentenceInside(sentences, "daily report");
    }
  }

  /** A joined text contains its pieces. */
  lemma {:induction false} PieceInside(pieces: seq<string>, k: nat)
    requires k < |pieces|
    ensures Contains(ToLower(Join(pieces, "")), ToLower(pieces[k]))
  {
    if k == 0 {
      var rest := if |pieces| == 1 then "" else Join(pieces[1..], "");
      assert Join(pieces, "") == "" + pieces[0] + rest;
      ContainsPiece("", pieces[0], rest, ToLower(pieces[0]));
    } else {
      PieceInside(pieces[1..], k - 1);
      ContainsBehind(pieces[0], Join(pieces[1..], ""), ToLower(pieces[k]));
      assert Join(pieces, "") == pieces[0] + Join(pieces[1..], "");
    }
  }

  lemma ContainsBehind(s: string, t: string, pattern: string)
    requires Contains(ToLower(t), pattern)
    ensures Contains(ToLower(s + t), pattern)
  {
    var i :| 0 <= i <= |ToLower(t)| && OccursAt(ToLower(t), pattern, i);
    assert ToLower(s + t)[|s| + i..] == ToLower(t)[i..];
    assert OccursAt(ToLower(s + t), pattern, |s| + i);
  }

  /** The joined sentences contain what the first of them contains. */
  lemma SentenceInside(sentences: seq<string>, pattern: string)
    requires sentences != [] && Contains(ToLower(sentences[0]), pattern)
    ensures Contains(ToLower(Join(sentences, " ")), pattern)
  {
    var first := sentences[0];
    var i :| 0 <= i <= |ToLower(first)| && OccursAt(ToLower(first), pattern, i);
    var all := Join(sentences, " ");
    var rest := if |sentences| == 1 then "" else " " + Join(sentences[1..], " ");
    assert all == first + rest;
    assert ToLower(all)[..|first|] == ToLower(first);
    assert ToLower(all)[i..][..|pattern|] == ToLower(first)[i..][..|pattern|];
    assert OccursAt(ToLower(all), pattern, i);
  }
}
