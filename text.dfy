/**
 * The string primitives the compliance check relies on: ASCII character
 * classes, `toLowerCase` restricted to ASCII, and `split` on a one-character
 * separator (JavaScript's `String.prototype.split`, which keeps empty pieces
 * and does not trim them).
 */
module Text {

  predicate IsAsciiLetter(c: char) {
    'a' <= c <= 'z' || 'A' <= c <= 'Z'
  }

  predicate IsAsciiUpper(c: char) {
    'A' <= c <= 'Z'
  }

  predicate IsAsciiDigit(c: char) {
    '0' <= c <= '9'
  }

  /** The characters a regular-expression `.` does not match. */
  predicate IsLineTerminator(c: char) {
    c == '\n' || c == '\r' || c == '\U{2028}' || c == '\U{2029}'
  }

  /** ASCII lower-casing of one character; every other character is kept. */
  function LowerChar(c: char): (r: char)
    ensures !IsAsciiUpper(r)
    ensures IsAsciiLetter(r) <==> IsAsciiLetter(c)
    ensures r == c <==> !IsAsciiUpper(c)
    ensures IsAsciiUpper(c) ==> r == "abcdefghijklmnopqrstuvwxyz"[c as int - 'A' as int]
  {
    if IsAsciiUpper(c) then (c as int - 'A' as int + 'a' as int) as char else c
  }

  /** Two characters lower-case alike exactly when they are equal or are the two cases of one ASCII letter. */
  lemma LowerCharSame(a: char, b: char)
    ensures LowerChar(a) == LowerChar(b) <==>
      a == b || (IsAsciiLetter(a) && IsAsciiLetter(b) && (a as int - b as int == 32 || b as int - a as int == 32))
  {
  }

  /** `s.toLowerCase()`, character by character. */
  function Lower(s: string): (r: string)
    ensures |r| == |s|
    ensures forall i :: 0 <= i < |s| ==> r[i] == LowerChar(s[i])
  {
    if s == [] then [] else [LowerChar(s[0])] + Lower(s[1..])
  }

  lemma LowerIdempotent(s: string)
    ensures Lower(Lower(s)) == Lower(s)
  {
  }

  /** Lower-casing both sides keeps a prefix a prefix. */
  lemma LowerKeepsPrefix(p: string, t: string)
    requires p <= t
    ensures Lower(p) <= Lower(t)
  {
  }

  /** The pieces of `s` between occurrences of `sep`, as `s.split(sep)`. */
  function Split(s: string, sep: char): (pieces: seq<string>)
    ensures |pieces| >= 1
    ensures forall i :: 0 <= i < |pieces| ==> sep !in pieces[i]
  {
    if s == [] then [[]]
    else
      var rest := Split(s[1..], sep);
      if s[0] == sep then [[]] + rest
      else [[s[0]] + rest[0]] + rest[1..]
  }

  /** `pieces.join(sep)`: the inverse of Split. */
  function Join(pieces: seq<string>, sep: char): (s: string)
    requires |pieces| >= 1
  {
    if |pieces| == 1 then pieces[0] else pieces[0] + [sep] + Join(pieces[1..], sep)
  }

  /** Splitting loses nothing: joining the pieces gives back the string. */
  lemma {:induction false} JoinSplit(s: string, sep: char)
    ensures Join(Split(s, sep), sep) == s
  {
    if s != [] {
      var rest := Split(s[1..], sep);
      JoinSplit(s[1..], sep);
      if s[0] == sep {
        assert ([[]] + rest)[1..] == rest;
      } else if |rest| > 1 {
        var pieces := Split(s, sep);
        assert pieces[1..] == rest[1..];
        assert Join(rest, sep) == rest[0] + [sep] + Join(rest[1..], sep);
        assert s == [s[0]] + s[1..];
      } else {
        assert s == [s[0]] + s[1..];
      }
    }
  }

  /** A string without the separator is one piece. */
  lemma {:induction false} SplitWithoutSeparator(s: string, sep: char)
    requires sep !in s
    ensures Split(s, sep) == [s]
  {
    if s != [] {
      assert sep !in s[1..] by {
        forall c | c in s[1..] ensures c != sep { }
      }
      SplitWithoutSeparator(s[1..], sep);
      assert s == [s[0]] + s[1..];
    }
  }

  /** A separator cuts the string into the pieces of either side. */
  lemma {:induction false} SplitAtSeparator(a: string, b: string, sep: char)
    ensures Split(a + [sep] + b, sep) == Split(a, sep) + Split(b, sep)
  {
    var s := a + [sep] + b;
    if a == [] {
      assert s[0] == sep && s[1..] == b;
    } else {
      var t := a[1..] + [sep] + b;
      assert s[0] == a[0] && s[1..] == t;
      SplitAtSeparator(a[1..], b, sep);
      var r, q := Split(a[1..], sep), Split(b, sep);
      if a[0] == sep {
        assert Split(s, sep) == [[]] + (r + q);
      } else {
        assert Split(s, sep) == [[a[0]] + (r + q)[0]] + (r + q)[1..];
        assert (r + q)[0] == r[0] && (r + q)[1..] == r[1..] + q;
      }
    }
  }

  /** Splitting a join of separator-free pieces gives back the pieces. */
  lemma {:induction false} SplitJoin(pieces: seq<string>, sep: char)
    requires |pieces| >= 1
    requires forall i :: 0 <= i < |pieces| ==> sep !in pieces[i]
    ensures Split(Join(pieces, sep), sep) == pieces
  {
    SplitWithoutSeparator(pieces[0], sep);
    if |pieces| > 1 {
      SplitJoin(pieces[1..], sep);
      SplitAtSeparator(pieces[0], Join(pieces[1..], sep), sep);
      assert pieces == [pieces[0]] + pieces[1..];
    }
  }

  /** A trailing separator adds an empty last piece. */
  lemma TrailingSeparator(s: string, sep: char)
    ensures Split(s + [sep], sep) == Split(s, sep) + [""]
  {
    SplitAtSeparator(s, [], sep);
    assert s + [sep] + [] == s + [sep];
  }

  /** Two adjacent separators enclose an empty piece. */
  lemma AdjacentSeparators(a: string, b: string, sep: char)
    ensures "" in Split(a + [sep, sep] + b, sep)
  {
    SplitAtSeparator(a, [sep] + b, sep);
    assert a + [sep, sep] + b == a + [sep] + ([sep] + b);
    SplitAtSeparator([], b, sep);
    assert [] + [sep] + b == [sep] + b;
    assert Split([sep] + b, sep)[0] == "";
  }
}
