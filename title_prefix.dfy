/**
 * Prefix rules on the pull-request title: `validateTitlePrefix` and the
 * allow-list and deny-list checks built on it. Both lists arrive as one
 * comma-separated string.
 */
module TitlePrefix {
  import opened Text

  /**
   * `validateTitlePrefix(title, prefix, caseSensitive)`: when the comparison
   * is case-insensitive both sides are lower-cased before `startsWith`.
   */
  function ValidateTitlePrefix(title: string, prefix: string, caseSensitive: bool): (r: bool)
    ensures caseSensitive ==>
      (r <==> |prefix| <= |title| && forall i :: 0 <= i < |prefix| ==> title[i] == prefix[i])
    ensures !caseSensitive ==>
      (r <==> |prefix| <= |title| && forall i :: 0 <= i < |prefix| ==> LowerChar(title[i]) == LowerChar(prefix[i]))
  {
    assert !caseSensitive && |prefix| <= |title| ==> (Lower(prefix) <= Lower(title) <==> Lower(prefix) == Lower(title)[..|prefix|]);
    if caseSensitive then prefix <= title else Lower(prefix) <= Lower(title)
  }

  /** `prefixes.some(el => validateTitlePrefix(title, el, caseSensitive))`. */
  function AnyPrefixMatches(title: string, prefixes: seq<string>, caseSensitive: bool): (r: bool)
    ensures r <==> exists i :: 0 <= i < |prefixes| && ValidateTitlePrefix(title, prefixes[i], caseSensitive)
  {
    if prefixes == [] then false
    else
      ValidateTitlePrefix(title, prefixes[0], caseSensitive) ||
      AnyPrefixMatches(title, prefixes[1..], caseSensitive)
  }

  /** The allow-list rejects the title: it is configured and no piece matches. */
  function AllowedPrefixFails(title: string, allowed: string, caseSensitive: bool): (fails: bool)
    ensures fails <==>
      |allowed| > 0 && forall i :: 0 <= i < |Split(allowed, ',')| ==>
        !ValidateTitlePrefix(title, Split(allowed, ',')[i], caseSensitive)
  {
    assert !AnyPrefixMatches(title, Split(allowed, ','), caseSensitive) <==>
      forall i :: 0 <= i < |Split(allowed, ',')| ==> !ValidateTitlePrefix(title, Split(allowed, ',')[i], caseSensitive);
    |allowed| > 0 && !AnyPrefixMatches(title, Split(allowed, ','), caseSensitive)
  }

  /** The deny-list rejects the title: it is configured and some piece matches. */
  function DisallowedPrefixFails(title: string, disallowed: string, caseSensitive: bool): (fails: bool)
    ensures fails <==>
      |disallowed| > 0 &&
      exists i :: 0 <= i < |Split(disallowed, ',')| && ValidateTitlePrefix(title, Split(disallowed, ',')[i], caseSensitive)
  {
    assert AnyPrefixMatches(title, Split(disallowed, ','), caseSensitive) <==>
      exists i :: 0 <= i < |Split(disallowed, ',')| && ValidateTitlePrefix(title, Split(disallowed, ',')[i], caseSensitive);
    |disallowed| > 0 && AnyPrefixMatches(title, Split(disallowed, ','), caseSensitive)
  }

  /** `startsWith("")` holds, so the empty prefix matches every title. */
  lemma EmptyPrefixMatches(title: string, caseSensitive: bool)
    ensures ValidateTitlePrefix(title, "", caseSensitive)
  {
  }

  /** A case-sensitive match is also a case-insensitive one. */
  lemma SensitiveImpliesInsensitive(title: string, prefix: string)
    requires ValidateTitlePrefix(title, prefix, true)
    ensures ValidateTitlePrefix(title, prefix, false)
  {
  }

  /** Case-insensitive matching ignores the case of the title and of the prefix. */
  lemma InsensitiveIgnoresCase(title: string, prefix: string)
    ensures ValidateTitlePrefix(Lower(title), prefix, false) == ValidateTitlePrefix(title, prefix, false)
    ensures ValidateTitlePrefix(title, Lower(prefix), false) == ValidateTitlePrefix(title, prefix, false)
  {
    LowerIdempotent(title);
    LowerIdempotent(prefix);
  }

  lemma CaseExample()
    ensures ValidateTitlePrefix("ABC-1: x", "abc", false)
    ensures !ValidateTitlePrefix("ABC-1: x", "abc", true)
  {
    var t := "ABC-1: x";
    assert LowerChar(t[0]) == 'a' && LowerChar(t[1]) == 'b' && LowerChar(t[2]) == 'c';
    assert t[0] != "abc"[0];
  }

  /** An empty string configures no restriction in either list. */
  lemma EmptyListsRestrictNothing(title: string, caseSensitive: bool)
    ensures !AllowedPrefixFails(title, "", caseSensitive)
    ensures !DisallowedPrefixFails(title, "", caseSensitive)
  {
  }

  /** A list with an empty piece admits (allow) or rejects (deny) every title. */
  lemma EmptyPieceMatchesEverything(title: string, list: string, caseSensitive: bool)
    requires "" in Split(list, ',')
    ensures !AllowedPrefixFails(title, list, caseSensitive)
    ensures |list| > 0 ==> DisallowedPrefixFails(title, list, caseSensitive)
  {
  }

  /** A trailing comma, as in `"feat,fix,"`, switches the allow-list off and makes the deny-list reject everything. */
  lemma TrailingCommaMatchesEverything(title: string, list: string, caseSensitive: bool)
    ensures !AllowedPrefixFails(title, list + [','], caseSensitive)
    ensures DisallowedPrefixFails(title, list + [','], caseSensitive)
  {
    TrailingSeparator(list, ',');
    assert "" == Split(list + [','], ',')[|Split(list, ',')|];
    EmptyPieceMatchesEverything(title, list + [','], caseSensitive);
  }

  /** Two adjacent commas, as in `"a,,b"`, do the same. */
  lemma DoubleCommaMatchesEverything(title: string, a: string, b: string, caseSensitive: bool)
    ensures !AllowedPrefixFails(title, a + [',', ','] + b, caseSensitive)
    ensures DisallowedPrefixFails(title, a + [',', ','] + b, caseSensitive)
  {
    AdjacentSeparators(a, b, ',');
    EmptyPieceMatchesEverything(title, a + [',', ','] + b, caseSensitive);
  }

  /** A list without commas is one prefix. */
  lemma SinglePrefixList(title: string, prefix: string, caseSensitive: bool)
    requires ',' !in prefix
    ensures AllowedPrefixFails(title, prefix, caseSensitive) <==>
      prefix != "" && !ValidateTitlePrefix(title, prefix, caseSensitive)
    ensures DisallowedPrefixFails(title, prefix, caseSensitive) <==>
      prefix != "" && ValidateTitlePrefix(title, prefix, caseSensitive)
  {
    SplitWithoutSeparator(prefix, ',');
  }

  /** The pieces of a comma-joined list are tried one by one. */
  lemma JoinedList(title: string, pieces: seq<string>, caseSensitive: bool)
    requires |pieces| >= 1
    requires forall i :: 0 <= i < |pieces| ==> ',' !in pieces[i]
    requires |Join(pieces, ',')| > 0
    ensures AllowedPrefixFails(title, Join(pieces, ','), caseSensitive) <==>
      forall i :: 0 <= i < |pieces| ==> !ValidateTitlePrefix(title, pieces[i], caseSensitive)
    ensures DisallowedPrefixFails(title, Join(pieces, ','), caseSensitive) <==>
      exists i :: 0 <= i < |pieces| && ValidateTitlePrefix(title, pieces[i], caseSensitive)
  {
    SplitJoin(pieces, ',');
  }
}
