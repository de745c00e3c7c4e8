/**
 * The work-item reference pattern `/[a-zA-Z]-.+[0-9]/` that both the title and
 * the description must contain. The pattern has no anchors, so it matches
 * anywhere in the text: an ASCII letter, a hyphen, one or more characters that
 * are not line terminators, and an ASCII digit.
 */
module ReferencePattern {
  import opened Text

  /** No line terminator among `s[lo..hi]`: what `.` accepts. */
  predicate NoBreak(s: string, lo: int, hi: int)
    requires 0 <= lo <= hi <= |s|
  {
    forall j :: lo <= j < hi ==> !IsLineTerminator(s[j])
  }

  /** The pattern matches the text starting at index `i`. */
  predicate MatchesAt(s: string, i: int) {
    0 <= i && i + 3 < |s| && IsAsciiLetter(s[i]) && s[i + 1] == '-' &&
    exists k :: i + 3 <= k < |s| && IsAsciiDigit(s[k]) && NoBreak(s, i + 2, k)
  }

  /** The pattern matches somewhere in the text. */
  predicate Matches(s: string) {
    exists i :: 0 <= i < |s| && MatchesAt(s, i)
  }

  /** Scans forward from `k` for a digit, giving up at a line terminator. */
  function DigitBeforeBreak(s: string, k: nat): (r: bool)
    requires k <= |s|
    decreases |s| - k
  {
    if k == |s| || IsLineTerminator(s[k]) then false
    else IsAsciiDigit(s[k]) || DigitBeforeBreak(s, k + 1)
  }

  /** `.+[0-9]` at index `j`: one non-terminator, then a digit before a break. */
  function TailFrom(s: string, j: nat): (r: bool)
    requires j <= |s|
  {
    j < |s| && !IsLineTerminator(s[j]) && DigitBeforeBreak(s, j + 1)
  }

  /** Tries every start index from `i` on, leftmost first. */
  function TestFrom(s: string, i: nat): (r: bool)
    requires i <= |s|
    decreases |s| - i
  {
    if i + 1 >= |s| then false
    else (IsAsciiLetter(s[i]) && s[i + 1] == '-' && TailFrom(s, i + 2)) || TestFrom(s, i + 1)
  }

  /** `rb2.test(s)`: the scanner accepts exactly the texts the pattern describes. */
  function Test(s: string): (r: bool)
    ensures r <==> Matches(s)
  {
    TestFromSpec(s, 0);
    TestFrom(s, 0)
  }

  lemma {:induction false} DigitBeforeBreakSpec(s: string, k: nat)
    requires k <= |s|
    ensures DigitBeforeBreak(s, k) <==>
      exists m :: k <= m < |s| && IsAsciiDigit(s[m]) && NoBreak(s, k, m)
    decreases |s| - k
  {
    if k < |s| && !IsLineTerminator(s[k]) {
      DigitBeforeBreakSpec(s, k + 1);
      if DigitBeforeBreak(s, k + 1) && !IsAsciiDigit(s[k]) {
        var m :| k + 1 <= m < |s| && IsAsciiDigit(s[m]) && NoBreak(s, k + 1, m);
        assert NoBreak(s, k, m);
      }
      if exists m :: k <= m < |s| && IsAsciiDigit(s[m]) && NoBreak(s, k, m) {
        var m :| k <= m < |s| && IsAsciiDigit(s[m]) && NoBreak(s, k, m);
        if m > k {
          assert NoBreak(s, k + 1, m);
        }
      }
    } else if k < |s| {
      forall m | k <= m < |s| && IsAsciiDigit(s[m]) ensures !NoBreak(s, k, m) {
        assert m != k;
      }
    }
  }

  lemma {:induction false} TestFromSpec(s: string, i: nat)
    requires i <= |s|
    ensures TestFrom(s, i) <==> exists p :: i <= p < |s| && MatchesAt(s, p)
    decreases |s| - i
  {
    if i + 1 < |s| {
      TestFromSpec(s, i + 1);
      if i + 2 < |s| {
        DigitBeforeBreakSpec(s, i + 3);
        if IsAsciiLetter(s[i]) && s[i + 1] == '-' {
          if TailFrom(s, i + 2) {
            var m :| i + 3 <= m < |s| && IsAsciiDigit(s[m]) && NoBreak(s, i + 3, m);
            assert NoBreak(s, i + 2, m);
            assert MatchesAt(s, i);
          }
          if MatchesAt(s, i) {
            var m :| i + 3 <= m < |s| && IsAsciiDigit(s[m]) && NoBreak(s, i + 2, m);
            assert NoBreak(s, i + 3, m);
            assert !IsLineTerminator(s[i + 2]);
          }
        }
      }
      assert forall p :: i <= p < |s| && MatchesAt(s, p) ==> p == i || i + 1 <= p;
    } else {
      assert forall p :: i <= p < |s| ==> !MatchesAt(s, p);
    }
  }

  /** No anchors: a match survives any text around it. */
  lemma MatchIsUnanchored(a: string, s: string, b: string)
    requires Matches(s)
    ensures Matches(a + s + b)
  {
    var i :| 0 <= i < |s| && MatchesAt(s, i);
    var k :| i + 3 <= k < |s| && IsAsciiDigit(s[k]) && NoBreak(s, i + 2, k);
    var t := a + s + b;
    assert forall j :: 0 <= j < |s| ==> t[|a| + j] == s[j];
    assert NoBreak(t, |a| + i + 2, |a| + k);
    assert MatchesAt(t, |a| + i);
  }

  /** Without a hyphen there is nothing to match. */
  lemma NoHyphenNoMatch(s: string)
    requires '-' !in s
    ensures !Matches(s)
  {
  }

  /** A key with more than one character after the hyphen matches. */
  lemma ExamplesAccepted()
    ensures Matches("AB-12") && Matches("A-x1")
  {
    assert IsAsciiDigit("AB-12"[4]) && NoBreak("AB-12", 3, 4);
    assert MatchesAt("AB-12", 1);
    assert IsAsciiDigit("A-x1"[3]) && NoBreak("A-x1", 2, 3);
    assert MatchesAt("A-x1", 0);
  }

  /**
   * `.+` needs a character between the hyphen and the digit, so a
   * one-digit key such as `AB-1` does not match; texts without a hyphen,
   * including the string "null" a missing description becomes, never match.
   */
  lemma ExamplesRejected()
    ensures !Matches("AB-1") && !Matches("no ticket") && !Matches("null")
  {
  }

  /** `.` stops at a line break: the digit must be on the hyphen's line. */
  lemma LineBreakBlocksMatch()
    ensures !Matches("A-x\n1") && Matches("A-xy1\n")
  {
    var s := "A-x\n1";
    forall i | 0 <= i < |s| ensures !MatchesAt(s, i) {
      if i + 3 < |s| && IsAsciiLetter(s[i]) && s[i + 1] == '-' {
        assert i == 0;
        forall k | 3 <= k < |s| && IsAsciiDigit(s[k]) ensures !NoBreak(s, 2, k) {
          assert k == 4 && IsLineTerminator(s[3]);
        }
      }
    }
    assert IsAsciiDigit("A-xy1\n"[4]) && NoBreak("A-xy1\n", 2, 4);
    assert MatchesAt("A-xy1\n", 0);
  }
}
