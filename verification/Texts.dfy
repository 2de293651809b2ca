/** `text.includes(pattern)` and `text.toLowerCase()`. */
module Texts {

  predicate OccursAt(text: string, pattern: string, i: nat)
    requires i <= |text|
  {
    pattern <= text[i..]
  }

  predicate Contains(text: string, pattern: string) {
    exists i :: 0 <= i <= |text| && OccursAt(text, pattern, i)
  }

  function LowerChar(c: char): char {
    if 'A' <= c <= 'Z' then (c as int + 32) as char else c
  }

  /** On the ASCII letters. */
  function ToLower(s: string): string {
    seq(|s|, i requires 0 <= i < |s| => LowerChar(s[i]))
  }

  lemma LowerConcat(s: string, t: string)
    ensures ToLower(s + t) == ToLower(s) + ToLower(t)
  {}

  // ---- patterns in a concatenation ----

  /** No occurrence of `pattern` begins in `s` and ends in `t`. */
  ghost predicate NoCrossing(s: string, t: string, pattern: string) {
    forall i :: 0 <= i < |s| && |s| < i + |pattern| ==> !OccursAt(s + t, pattern, i)
  }

  lemma ContainsSplit(s: string, t: string, pattern: string)
    requires NoCrossing(s, t, pattern)
    ensures Contains(s + t, pattern) <==> Contains(s, pattern) || Contains(t, pattern)
  {
    var u := s + t;
    forall i | 0 <= i && i + |pattern| <= |s| ensures OccursAt(s, pattern, i) <==> OccursAt(u, pattern, i) {
      assert u[i..][..|pattern|] == s[i..][..|pattern|];
    }
    forall i | 0 <= i <= |t| ensures OccursAt(t, pattern, i) <==> OccursAt(u, pattern, |s| + i) {
      assert u[|s| + i..] == t[i..];
    }
    if i :| 0 <= i <= |u| && OccursAt(u, pattern, i) {
      if i + |pattern| > |s| {
        assert i >= |s|;
        assert OccursAt(t, pattern, i - |s|);
      }
    }
    if i :| 0 <= i <= |s| && OccursAt(s, pattern, i) {
      assert OccursAt(u, pattern, i);
    }
    if i :| 0 <= i <= |t| && OccursAt(t, pattern, i) {
      assert OccursAt(u, pattern, |s| + i);
    }
  }

  lemma OccursChar(text: string, pattern: string, i: nat, k: nat)
    requires i <= |text| && OccursAt(text, pattern, i) && k < |pattern|
    ensures i + k < |text| && text[i + k] == pattern[k]
  {
    assert text[i..][k] == pattern[k];
  }

  /** A text contains a pattern exactly when it is the pattern with something
      before and something behind. */
  lemma ContainsIff(text: string, pattern: string)
    ensures Contains(text, pattern) <==> exists before, after :: text == before + pattern + after
  {
    if i :| 0 <= i <= |text| && OccursAt(text, pattern, i) {
      assert text == text[..i] + pattern + text[i + |pattern|..];
    }
    if before, after :| text == before + pattern + after {
      assert text[|before|..] == pattern + after;
      assert OccursAt(text, pattern, |before|);
    }
  }
}
