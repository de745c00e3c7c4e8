# Pull-request format rules, modelled in Dafny

This project models the compliance check of the `pr-format-rules` GitHub
action (`index.js`). On a `pull_request` event the action reads the pull
request's title and description and fails the run when one of its rules is
broken. The rules are checked in a fixed order and the first broken rule
decides the failure:

1. the event must be `pull_request`;
2. the title must contain a work-item reference matching `/[a-zA-Z]-.+[0-9]/`;
3. the description must contain one too (a missing description is `null`,
   which JavaScript turns into the text `"null"`, so it never matches);
4. the title must not be shorter than `min_length`;
5. the title must not be longer than `max_length`, where 0 means no limit;
6. when `allowed_prefixes` is set, the title must start with one of its
   comma-separated pieces;
7. when `disallowed_prefixes` is set, the title must start with none of them.

Prefixes are compared case-sensitively only when `prefix_case_sensitive` is
`"true"`; otherwise both title and prefix are lower-cased first.

Files and modules:

- `wrappers.dfy` (`Wrappers`): `Option`, for `null` descriptions and for the
  `NaN` that `parseInt` gives for an unset length.
- `text.dfy` (`Text`): ASCII character classes, ASCII lower-casing, and
  `Split`/`Join` with the semantics of JavaScript's `split(',')`: empty pieces
  are kept and nothing is trimmed.
- `reference_pattern.dfy` (`ReferencePattern`): the reference regex. `Matches`
  says what the regex means: some index holds a letter, then `-`, and a digit
  follows at least two places later with no line terminator in between.
  `Test` is a left-to-right scanner standing for `RegExp.test`. They are
  proved equal.
- `title_prefix.dfy` (`TitlePrefix`): `validateTitlePrefix`, the `some` over
  the split list, and the allow-list and deny-list rules.
- `compliance.dfy` (`Compliance`): the inputs, the rule order, the
  specification `Evaluate` (the first violated rule in `RuleOrder`), and
  `Run`, the early-return chain of `run()`, proved to give the same outcome.
- `compliance_properties.dfy` (`ComplianceProperties`): what the order and the
  edge cases mean for the outcome.

A work-item key such as `AB-123` is letters, a hyphen and digits. The regex
differs from that in two ways. It needs at least one character between the
hyphen and the final digit, so `AB-1` is rejected. It accepts any characters
other than line breaks there, so `A-x1` is accepted (`ExamplesAccepted`,
`ExamplesRejected`). The model follows the regex.

## Model

| member | source | states |
|---|---|---|
| Text.LowerChar | index.js:8-9 | ASCII lower-casing sends each upper-case letter to its own lower-case letter of the alphabet and leaves every other character unchanged |
| Text.LowerCharSame | index.js:8-9 | two characters lower-case alike exactly when they are equal or are the two cases of one ASCII letter |
| Text.Lower | index.js:8-9 | `toLowerCase` keeps the length and lower-cases every character in place |
| Text.LowerIdempotent | index.js:8-9 | lower-casing twice is lower-casing once |
| Text.LowerKeepsPrefix | index.js:7-11 | lower-casing both sides keeps a prefix a prefix |
| Text.Split | index.js:66 | `split(',')` gives at least one piece and no piece contains a comma |
| Text.JoinSplit | index.js:66 | joining the pieces of `split(',')` with commas gives back the list string |
| Text.SplitWithoutSeparator | index.js:66 | a string without a comma splits into itself alone |
| Text.SplitAtSeparator | index.js:66 | splitting `a + "," + b` gives the pieces of `a` followed by the pieces of `b` |
| Text.SplitJoin | index.js:66 | splitting a comma-join of comma-free pieces gives back those pieces, so `Split` is the inverse of `Join` |
| Text.TrailingSeparator | index.js:66 | a trailing comma adds an empty last piece |
| Text.AdjacentSeparators | index.js:66 | two adjacent commas enclose an empty piece |
| ReferencePattern.DigitBeforeBreakSpec | index.js:40 | the scan for `.+[0-9]`'s digit finds one exactly when a digit occurs before any line terminator |
| ReferencePattern.TestFromSpec | index.js:40-41 | the scanner from index `i` succeeds exactly when the pattern matches at some start index at or after `i` |
| ReferencePattern.Test | index.js:40-46 | `rb2.test(s)` holds exactly when a letter, `-`, one or more non-line-terminators and a digit occur in `s` |
| ReferencePattern.MatchIsUnanchored | index.js:40 | the pattern has no anchors: a matching text still matches with any text before and after it |
| ReferencePattern.NoHyphenNoMatch | index.js:40 | a text without a hyphen never matches |
| ReferencePattern.ExamplesAccepted | index.js:40-41 | `AB-12` and `A-x1` match |
| ReferencePattern.ExamplesRejected | index.js:46 | `AB-1`, `no ticket` and `null` (a missing description) do not match |
| ReferencePattern.LineBreakBlocksMatch | index.js:40 | `.` does not cross a line break: `A-x\n1` does not match, `A-xy1\n` does |
| TitlePrefix.AnyPrefixMatches | index.js:66 | `some` over the pieces holds exactly when some piece passes `validateTitlePrefix` |
| TitlePrefix.ValidateTitlePrefix | index.js:6-12 | case-sensitively the title starts with the prefix character for character; case-insensitively the prefix is not longer and each of its characters equals the title's after lower-casing both |
| TitlePrefix.AllowedPrefixFails | index.js:66 | the allow rule fails exactly when the list is non-empty and no comma-separated piece matches the title |
| TitlePrefix.DisallowedPrefixFails | index.js:73 | the deny rule fails exactly when the list is non-empty and some comma-separated piece matches the title |
| TitlePrefix.EmptyPrefixMatches | index.js:11 | the empty prefix matches every title under either setting |
| TitlePrefix.SensitiveImpliesInsensitive | index.js:6-11 | a case-sensitive match is also a case-insensitive match |
| TitlePrefix.InsensitiveIgnoresCase | index.js:7-10 | the case-insensitive comparison gives the same answer when title or prefix is lower-cased first |
| TitlePrefix.CaseExample | index.js:6-11 | `ABC-1: x` starts with `abc` case-insensitively but not case-sensitively |
| TitlePrefix.EmptyListsRestrictNothing | index.js:66-76 | an empty allow-list or deny-list rejects no title |
| TitlePrefix.EmptyPieceMatchesEverything | index.js:66-76 | a list with an empty piece admits every title as an allow-list and, when non-empty, rejects every title as a deny-list |
| TitlePrefix.TrailingCommaMatchesEverything | index.js:66-76 | a list with a trailing comma admits every title as an allow-list and rejects every title as a deny-list |
| TitlePrefix.DoubleCommaMatchesEverything | index.js:66-76 | a list with two adjacent commas does the same |
| TitlePrefix.SinglePrefixList | index.js:66-76 | a comma-free list is one prefix: allow fails exactly when it is non-empty and does not match, deny fails exactly when it is non-empty and matches |
| TitlePrefix.JoinedList | index.js:66-76 | for a list built from comma-free pieces, allow fails exactly when no piece matches and deny fails exactly when some piece matches |
| Compliance.BodyText | index.js:46 | a description is tested as itself; a `null` description is tested as `"null"`, which never carries a reference |
| Compliance.Violates | index.js:19-73 | the event rule fails exactly for events other than `pull_request`, the title rule exactly when the title has no reference, the description rule whenever the description is `null`; an unset minimum, an unset or non-positive maximum and empty prefix lists never fail |
| Compliance.RuleOrderComplete | index.js:19-76 | the checked order contains every rule, each once |
| Compliance.NoViolationInOrder | index.js:19-76 | no rule in the checked order is violated exactly when no rule at all is |
| Compliance.FirstViolation | index.js:19-76 | checking rules in order gives Pass exactly when no rule is violated, and otherwise a rule that is violated with no violated rule before it |
| Compliance.FirstViolationAt | index.js:19-76 | the first violated rule is the reported one |
| Compliance.Evaluate | index.js:19-76 | the check passes exactly when no rule is violated, and a reported reason is always a violated rule |
| Compliance.EvaluateInOrder | index.js:19-76 | the outcome is the reason of the first violated rule in the order event, title reference, description reference, minimum, maximum, allowed, disallowed, and Pass when none is violated |
| Compliance.Run | index.js:19-76 | the early-return chain of `run()` gives the outcome of checking the rules in order |
| ComplianceProperties.PassIff | index.js:19-76 | the check passes exactly when the event is `pull_request`, both texts carry a reference, the length bounds hold and neither prefix rule fails |
| ComplianceProperties.FailIff | index.js:19-76 | the check fails with a rule's reason exactly when that rule is violated and every earlier rule holds |
| ComplianceProperties.InvalidEventFirst | index.js:19-22 | a non-`pull_request` event fails with the event reason whatever the rest |
| ComplianceProperties.MissingDescriptionFails | index.js:46-49 | a valid event and title with a `null` description fail with the description reason |
| ComplianceProperties.MinimumLength | index.js:51-55 | an unset minimum never fails; a set one fails exactly when the title is shorter, once the earlier rules hold |
| ComplianceProperties.NoMaximum | index.js:57-61 | a maximum that is unset, 0 or negative never fails, whatever the title length |
| ComplianceProperties.MaximumLength | index.js:57-61 | a positive maximum fails exactly when the title is longer, once the earlier rules hold |
| ComplianceProperties.MaximumFiveExample | index.js:57-61 | maximum 5 and a 6-character title fail with the maximum-length reason |
| ComplianceProperties.UnrestrictedPasses | index.js:40-76 | references in both texts, no minimum (or 0), maximum 0 and empty prefix lists pass |
| ComplianceProperties.DenyWinsOverAllow | index.js:63-76 | a title matching both an allowed and a disallowed prefix fails with the disallowed reason |
| ComplianceProperties.TrailingCommaOutcomes | index.js:63-76 | a trailing comma makes the allow rule never fail and makes every pull request fail when it is in the deny-list |
| ComplianceProperties.EndToEndPass | index.js:19-76 | `AB-12 add feature` with description `AB-12 details` and no restrictions passes |
| ComplianceProperties.EndToEndNoTitleReference | index.js:40-44 | `add feature` fails with the title-reference reason |

## Left out

- Fetching the pull request (`client.pulls.get`), `github.context`, `core.getInput` and `core.info`: I/O; the model takes the event name, title, body and inputs as parameters.
- `core.setFailed` and its message texts: a failure is `Fail(reason)` with one reason per rule. The description rule's message says "title" but shows the description; that wording is not modelled.
- The `github_token` input and the fetch of the pull request are assumed to succeed. `core.getInput('github_token', {required: true})` (index.js:16) throws before the event check, so a missing token fails even for a non-`pull_request` event. A failing `client.pulls.get` (index.js:29) fails after the event check. `InvalidEventFirst` and `PassIff` hold under this assumption.
- `async`/`await` and the `try`/`catch` that reports exceptions through `setFailed`: runtime plumbing; no modelled operation throws.
- `parseInt`: a JavaScript builtin; its result is `Option<int>`, with `NaN` as `None`. Comparisons with `NaN` are false, so `None` never fails a length rule.
- Full Unicode `toLowerCase` and UTF-16 lengths: lower-casing is ASCII only and a title's length is its number of Dafny characters (Unicode scalar values), not UTF-16 code units.
- The regular-expression engine in general: only the one pattern `/[a-zA-Z]-.+[0-9]/` is modelled, by a hand-written predicate and scanner.
- An issue-tracker status gate and a bracket-delimited reference variant are not part of this model; `index.js` has neither.
