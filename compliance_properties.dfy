/** What the order of the rules and their edge cases mean for the outcome. */
module ComplianceProperties {
  import opened Wrappers
  import opened Text
  import opened ReferencePattern
  import opened TitlePrefix
  import opened Compliance

  /** The check passes exactly when the event is a pull request and every rule holds. */
  lemma PassIff(pr: PullRequest, cfg: Config)
    ensures Evaluate(pr, cfg) == Pass <==>
      pr.eventName == "pull_request" &&
      Matches(pr.title) &&
      Matches(BodyText(pr.body)) &&
      (cfg.minLength.Some? ==> |pr.title| >= cfg.minLength.value) &&
      (cfg.maxLength.Some? && cfg.maxLength.value > 0 ==> |pr.title| <= cfg.maxLength.value) &&
      !AllowedPrefixFails(pr.title, cfg.allowedPrefixes, cfg.prefixCaseSensitive) &&
      !DisallowedPrefixFails(pr.title, cfg.disallowedPrefixes, cfg.prefixCaseSensitive)
  {
    assert RuleOrder[0] == InvalidEvent && RuleOrder[1] == TitleReference;
    assert RuleOrder[2] == DescriptionReference && RuleOrder[3] == TooShort && RuleOrder[4] == TooLong;
    assert RuleOrder[5] == NoAllowedPrefix && RuleOrder[6] == DisallowedPrefix;
    if forall i :: 0 <= i < |RuleOrder| ==> !Violates(RuleOrder[i], pr, cfg) {
      assert !Violates(RuleOrder[0], pr, cfg) && !Violates(RuleOrder[1], pr, cfg);
      assert !Violates(RuleOrder[2], pr, cfg) && !Violates(RuleOrder[3], pr, cfg);
      assert !Violates(RuleOrder[4], pr, cfg) && !Violates(RuleOrder[5], pr, cfg);
      assert !Violates(RuleOrder[6], pr, cfg);
    }
  }

  /**
   * The reported reason is the first violated rule in the order event, title
   * reference, description reference, minimum, maximum, allowed, disallowed.
   */
  lemma FailIff(pr: PullRequest, cfg: Config, i: int)
    requires 0 <= i < |RuleOrder|
    ensures Evaluate(pr, cfg) == Fail(RuleOrder[i]) <==> FirstViolated(RuleOrder, i, pr, cfg)
  {
    if FirstViolated(RuleOrder, i, pr, cfg) {
      FirstViolationAt(RuleOrder, i, pr, cfg);
    }
    if Evaluate(pr, cfg) == Fail(RuleOrder[i]) {
      RuleOrderComplete();
      var k :| 0 <= k < |RuleOrder| && RuleOrder[k] == RuleOrder[i] && FirstViolated(RuleOrder, k, pr, cfg);
    }
  }

  /** An event other than `pull_request` is reported before anything else is looked at. */
  lemma InvalidEventFirst(pr: PullRequest, cfg: Config)
    requires pr.eventName != "pull_request"
    ensures Evaluate(pr, cfg) == Fail(InvalidEvent)
  {
  }

  /** A missing description becomes "null", which never carries a reference. */
  lemma MissingDescriptionFails(pr: PullRequest, cfg: Config)
    requires pr.eventName == "pull_request" && Matches(pr.title) && pr.body == None
    ensures Evaluate(pr, cfg) == Fail(DescriptionReference)
  {
    ExamplesRejected();
    FailIff(pr, cfg, 2);
  }

  /** An unset minimum never fails; a set one fails exactly on shorter titles, once the earlier rules hold. */
  lemma MinimumLength(pr: PullRequest, cfg: Config)
    ensures cfg.minLength == None ==> Evaluate(pr, cfg) != Fail(TooShort)
    ensures
      (pr.eventName == "pull_request" && Matches(pr.title) && Matches(BodyText(pr.body)) && cfg.minLength.Some?)
      ==> (Evaluate(pr, cfg) == Fail(TooShort) <==> |pr.title| < cfg.minLength.value)
  {
    FailIff(pr, cfg, 3);
  }

  /** An unset or zero (or negative) maximum never fails, whatever the title's length. */
  lemma NoMaximum(pr: PullRequest, cfg: Config)
    requires cfg.maxLength == None || cfg.maxLength.value <= 0
    ensures Evaluate(pr, cfg) != Fail(TooLong)
  {
  }

  /** A set positive maximum fails exactly on longer titles, once the earlier rules hold. */
  lemma MaximumLength(pr: PullRequest, cfg: Config)
    requires pr.eventName == "pull_request" && Matches(pr.title) && Matches(BodyText(pr.body))
    requires cfg.minLength == None || |pr.title| >= cfg.minLength.value
    requires cfg.maxLength.Some? && cfg.maxLength.value > 0
    ensures Evaluate(pr, cfg) == Fail(TooLong) <==> |pr.title| > cfg.maxLength.value
  {
    FailIff(pr, cfg, 4);
  }

  /** Maximum 5 and a 6-character title: the title is too long. */
  lemma MaximumFiveExample()
    ensures Evaluate(PullRequest("pull_request", "A-b1cd", Some("A-b1")),
                     Config(None, Some(5), "", "", false)) == Fail(TooLong)
  {
    var pr := PullRequest("pull_request", "A-b1cd", Some("A-b1"));
    assert IsAsciiDigit(pr.title[3]) && NoBreak(pr.title, 2, 3);
    assert MatchesAt(pr.title, 0);
    assert IsAsciiDigit("A-b1"[3]) && NoBreak("A-b1", 2, 3);
    assert MatchesAt("A-b1", 0);
    MaximumLength(pr, Config(None, Some(5), "", "", false));
  }

  /** With no limits and no prefix lists, a title and a description with a reference pass. */
  lemma UnrestrictedPasses(pr: PullRequest, minLength: Option<int>, caseSensitive: bool)
    requires pr.eventName == "pull_request" && Matches(pr.title) && Matches(BodyText(pr.body))
    requires minLength == None || minLength == Some(0)
    ensures Evaluate(pr, Config(minLength, Some(0), "", "", caseSensitive)) == Pass
  {
  }

  /**
   * A title that starts with both an allowed and a disallowed prefix fails
   * with the disallowed reason: the allow-list is checked first and passes.
   */
  lemma DenyWinsOverAllow(pr: PullRequest, cfg: Config)
    requires EarlierRulesHold(pr, cfg)
    requires AnyPrefixMatches(pr.title, Split(cfg.allowedPrefixes, ','), cfg.prefixCaseSensitive)
    requires AnyPrefixMatches(pr.title, Split(cfg.disallowedPrefixes, ','), cfg.prefixCaseSensitive)
    requires |cfg.disallowedPrefixes| > 0
    ensures Evaluate(pr, cfg) == Fail(DisallowedPrefix)
  {
    FailIff(pr, cfg, 6);
  }

  /** The event, reference and length rules hold. */
  predicate EarlierRulesHold(pr: PullRequest, cfg: Config) {
    pr.eventName == "pull_request" && Matches(pr.title) && Matches(BodyText(pr.body)) &&
    (cfg.minLength.Some? ==> |pr.title| >= cfg.minLength.value) &&
    (cfg.maxLength.Some? && cfg.maxLength.value > 0 ==> |pr.title| <= cfg.maxLength.value)
  }

  /**
   * A trailing comma in the allow-list means the allow rule never fails; in
   * the deny-list it means no pull request passes.
   */
  lemma TrailingCommaOutcomes(pr: PullRequest, cfg: Config, list: string)
    ensures Evaluate(pr, cfg.(allowedPrefixes := list + [','])) != Fail(NoAllowedPrefix)
    ensures Evaluate(pr, cfg.(disallowedPrefixes := list + [','])) != Pass
  {
    var allow := cfg.(allowedPrefixes := list + [',']);
    var deny := cfg.(disallowedPrefixes := list + [',']);
    TrailingCommaMatchesEverything(pr.title, list, cfg.prefixCaseSensitive);
    FailIff(pr, allow, 5);
    PassIff(pr, deny);
  }

  /** End to end: a feature pull request with a reference in both fields passes. */
  lemma EndToEndPass()
    ensures Evaluate(PullRequest("pull_request", "AB-12 add feature", Some("AB-12 details")),
                     Config(Some(0), Some(0), "", "", false)) == Pass
  {
    var t, d := "AB-12 add feature", "AB-12 details";
    assert IsAsciiDigit(t[4]) && NoBreak(t, 3, 4);
    assert MatchesAt(t, 1);
    assert IsAsciiDigit(d[4]) && NoBreak(d, 3, 4);
    assert MatchesAt(d, 1);
    UnrestrictedPasses(PullRequest("pull_request", t, Some(d)), Some(0), false);
  }

  /** End to end: without a reference in the title the check fails at the title rule. */
  lemma EndToEndNoTitleReference()
    ensures Evaluate(PullRequest("pull_request", "add feature", Some("AB-12 details")),
                     Config(Some(0), Some(0), "", "", false)) == Fail(TitleReference)
  {
    NoHyphenNoMatch("add feature");
    EvaluateInOrder(PullRequest("pull_request", "add feature", Some("AB-12 details")), Config(Some(0), Some(0), "", "", false));
  }
}
