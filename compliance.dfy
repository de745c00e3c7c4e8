/**
 * The pull-request compliance check: the event, title and description of one
 * pull request are checked against the configured rules in a fixed order, and
 * the first rule that fails decides the outcome.
 */
module Compliance {
  import opened Wrappers
  import opened Text
  import opened ReferencePattern
  import opened TitlePrefix

  /** The rule that failed; the action reports it through `setFailed`. */
  datatype Reason =
    | InvalidEvent
    | TitleReference
    | DescriptionReference
    | TooShort
    | TooLong
    | NoAllowedPrefix
    | DisallowedPrefix

  datatype Outcome = Pass | Fail(reason: Reason)

  /** What the action reads about the pull request that triggered it; `body` is `null` when the description is empty. */
  datatype PullRequest = PullRequest(eventName: string, title: string, body: Option<string>)

  /**
   * The action inputs. A length is None when `parseInt` of the input gives
   * `NaN` (the input is unset or not a number).
   */
  datatype Config = Config(
    minLength: Option<int>,
    maxLength: Option<int>,
    allowedPrefixes: string,
    disallowedPrefixes: string,
    prefixCaseSensitive: bool)

  const ValidEvents: seq<string> := ["pull_request"]

  /** The order in which the rules are checked. */
  const RuleOrder: seq<Reason> :=
    [InvalidEvent, TitleReference, DescriptionReference, TooShort, TooLong, NoAllowedPrefix, DisallowedPrefix]

  /** Every rule is checked: `RuleOrder` lists each reason exactly once. */
  lemma RuleOrderComplete()
    ensures forall rule :: rule in RuleOrder
    ensures forall i, j :: 0 <= i < j < |RuleOrder| ==> RuleOrder[i] != RuleOrder[j]
  {
    forall rule ensures rule in RuleOrder {
      match rule
      case InvalidEvent => assert RuleOrder[0] == rule;
      case TitleReference => assert RuleOrder[1] == rule;
      case DescriptionReference => assert RuleOrder[2] == rule;
      case TooShort => assert RuleOrder[3] == rule;
      case TooLong => assert RuleOrder[4] == rule;
      case NoAllowedPrefix => assert RuleOrder[5] == rule;
      case DisallowedPrefix => assert RuleOrder[6] == rule;
    }
  }

  /** No rule in `RuleOrder` is violated exactly when no rule at all is. */
  lemma NoViolationInOrder(pr: PullRequest, cfg: Config)
    ensures (forall i :: 0 <= i < |RuleOrder| ==> !Violates(RuleOrder[i], pr, cfg)) <==>
      (forall rule :: !Violates(rule, pr, cfg))
  {
    RuleOrderComplete();
    if forall i :: 0 <= i < |RuleOrder| ==> !Violates(RuleOrder[i], pr, cfg) {
      forall rule ensures !Violates(rule, pr, cfg) {
        assert rule in RuleOrder;
        var i :| 0 <= i < |RuleOrder| && RuleOrder[i] == rule;
      }
    }
  }

  /** The text `rb2.test` sees: a `null` description is converted to "null". */
  function BodyText(body: Option<string>): (text: string)
    ensures body.Some? ==> text == body.value
    ensures body.None? ==> !Matches(text)
  {
    match body
    case None => ExamplesRejected(); "null"
    case Some(text) => text
  }

  /** When the given rule rejects the pull request, looked at on its own. */
  predicate Violates(rule: Reason, pr: PullRequest, cfg: Config)
    ensures rule == InvalidEvent ==> (Violates(rule, pr, cfg) <==> pr.eventName != "pull_request")
    ensures rule == TitleReference ==> (Violates(rule, pr, cfg) <==> !Test(pr.title))
    ensures rule == DescriptionReference && pr.body.None? ==> Violates(rule, pr, cfg)
    ensures rule == TooShort && Violates(rule, pr, cfg) ==> cfg.minLength.Some?
    ensures rule == TooLong && Violates(rule, pr, cfg) ==> cfg.maxLength.Some? && cfg.maxLength.value > 0
    ensures rule in {NoAllowedPrefix, DisallowedPrefix} && cfg.allowedPrefixes == cfg.disallowedPrefixes == "" ==>
      !Violates(rule, pr, cfg)
  {
    match rule
    case InvalidEvent => pr.eventName !in ValidEvents
    case TitleReference => !Matches(pr.title)
    case DescriptionReference => !Matches(BodyText(pr.body))
    case TooShort => cfg.minLength.Some? && |pr.title| < cfg.minLength.value
    case TooLong => cfg.maxLength.Some? && cfg.maxLength.value > 0 && |pr.title| > cfg.maxLength.value
    case NoAllowedPrefix => AllowedPrefixFails(pr.title, cfg.allowedPrefixes, cfg.prefixCaseSensitive)
    case DisallowedPrefix => DisallowedPrefixFails(pr.title, cfg.disallowedPrefixes, cfg.prefixCaseSensitive)
  }

  /** `rules[i]` is violated and no rule before it is. */
  predicate FirstViolated(rules: seq<Reason>, i: int, pr: PullRequest, cfg: Config)
    requires 0 <= i < |rules|
  {
    Violates(rules[i], pr, cfg) && forall j :: 0 <= j < i ==> !Violates(rules[j], pr, cfg)
  }

  /** Checks the rules in order and stops at the first that is violated. */
  function FirstViolation(rules: seq<Reason>, pr: PullRequest, cfg: Config): (r: Outcome)
    ensures r == Pass <==> forall i :: 0 <= i < |rules| ==> !Violates(rules[i], pr, cfg)
    ensures r.Fail? ==> exists i :: 0 <= i < |rules| && rules[i] == r.reason && FirstViolated(rules, i, pr, cfg)
  {
    if rules == [] then Pass
    else if Violates(rules[0], pr, cfg) then Fail(rules[0])
    else
      var r := FirstViolation(rules[1..], pr, cfg);
      assert forall i :: 1 <= i < |rules| ==> rules[i] == rules[1..][i - 1];
      r
  }

  /** The first violated rule is the one reported. */
  lemma FirstViolationAt(rules: seq<Reason>, i: int, pr: PullRequest, cfg: Config)
    requires 0 <= i < |rules| && FirstViolated(rules, i, pr, cfg)
    ensures FirstViolation(rules, pr, cfg) == Fail(rules[i])
  {
  }

  /** The outcome of the whole check. */
  function Evaluate(pr: PullRequest, cfg: Config): (r: Outcome)
    ensures r == Pass <==> forall rule :: !Violates(rule, pr, cfg)
    ensures r.Fail? ==> Violates(r.reason, pr, cfg)
  {
    NoViolationInOrder(pr, cfg);
    FirstViolation(RuleOrder, pr, cfg)
  }

  /** `Evaluate` as the chain of rules, first to last. */
  lemma EvaluateInOrder(pr: PullRequest, cfg: Config)
    ensures Evaluate(pr, cfg) ==
      if Violates(InvalidEvent, pr, cfg) then Fail(InvalidEvent)
      else if Violates(TitleReference, pr, cfg) then Fail(TitleReference)
      else if Violates(DescriptionReference, pr, cfg) then Fail(DescriptionReference)
      else if Violates(TooShort, pr, cfg) then Fail(TooShort)
      else if Violates(TooLong, pr, cfg) then Fail(TooLong)
      else if Violates(NoAllowedPrefix, pr, cfg) then Fail(NoAllowedPrefix)
      else if Violates(DisallowedPrefix, pr, cfg) then Fail(DisallowedPrefix)
      else Pass
  {
    var r0 := RuleOrder;
    var r1 := [TitleReference, DescriptionReference, TooShort, TooLong, NoAllowedPrefix, DisallowedPrefix];
    var r2 := [DescriptionReference, TooShort, TooLong, NoAllowedPrefix, DisallowedPrefix];
    var r3 := [TooShort, TooLong, NoAllowedPrefix, DisallowedPrefix];
    var r4 := [TooLong, NoAllowedPrefix, DisallowedPrefix];
    var r5 := [NoAllowedPrefix, DisallowedPrefix];
    var r6 := [DisallowedPrefix];
    assert r0[1..] == r1 && r1[1..] == r2 && r2[1..] == r3;
    assert r3[1..] == r4 && r4[1..] == r5 && r5[1..] == r6 && r6[1..] == [];
    assert FirstViolation(r6, pr, cfg) == if Violates(r6[0], pr, cfg) then Fail(r6[0]) else FirstViolation([], pr, cfg);
    assert FirstViolation(r5, pr, cfg) == if Violates(r5[0], pr, cfg) then Fail(r5[0]) else FirstViolation(r6, pr, cfg);
    assert FirstViolation(r4, pr, cfg) == if Violates(r4[0], pr, cfg) then Fail(r4[0]) else FirstViolation(r5, pr, cfg);
    assert FirstViolation(r3, pr, cfg) == if Violates(r3[0], pr, cfg) then Fail(r3[0]) else FirstViolation(r4, pr, cfg);
    assert FirstViolation(r2, pr, cfg) == if Violates(r2[0], pr, cfg) then Fail(r2[0]) else FirstViolation(r3, pr, cfg);
    assert FirstViolation(r1, pr, cfg) == if Violates(r1[0], pr, cfg) then Fail(r1[0]) else FirstViolation(r2, pr, cfg);
    assert FirstViolation(r0, pr, cfg) == if Violates(r0[0], pr, cfg) then Fail(r0[0]) else FirstViolation(r1, pr, cfg);
  }

  /**
   * `run()`: the same checks as a sequence of early returns. The scanner
   * `Test` stands for `rb2.test`.
   */
  method Run(pr: PullRequest, cfg: Config) returns (outcome: Outcome)
    ensures outcome == Evaluate(pr, cfg)
  {
    EvaluateInOrder(pr, cfg);
    if pr.eventName !in ValidEvents {
      return Fail(InvalidEvent);
    }
    var title, desc := pr.title, pr.body;
    if !Test(title) {
      return Fail(TitleReference);
    }
    if !Test(BodyText(desc)) {
      return Fail(DescriptionReference);
    }
    var minLen := cfg.minLength;
    if minLen.Some? && |title| < minLen.value {
      return Fail(TooShort);
    }
    var maxLen := cfg.maxLength;
    if maxLen.Some? && maxLen.value > 0 && |title| > maxLen.value {
      return Fail(TooLong);
    }
    var prefixes := cfg.allowedPrefixes;
    var prefixCaseSensitive := cfg.prefixCaseSensitive;
    if |prefixes| > 0 && !AnyPrefixMatches(title, Split(prefixes, ','), prefixCaseSensitive) {
      return Fail(NoAllowedPrefix);
    }
    prefixes := cfg.disallowedPrefixes;
    if |prefixes| > 0 && AnyPrefixMatches(title, Split(prefixes, ','), prefixCaseSensitive) {
      return Fail(DisallowedPrefix);
    }
    return Pass;
  }
}
