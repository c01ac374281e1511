# commit-conditions: a Dafny model of the change classifier

The action decides whether a change "passes" and publishes `"true"` or `"false"` under the
output key `result`. It looks at the change message first. A non-empty success keyword
contained in the message gives `"true"`. Failing that, a non-empty fail keyword contained in
the message gives `"false"`. Otherwise it filters the changed file paths: it keeps those that
match an include pattern (when includes are configured), then drops those that match an
exclude pattern (when excludes are configured). It publishes `"true"` exactly when a path
is left. When that path decision is `"true"` on a `pull_request` event and the `approve`
input is set, it approves the pull request unless it is already approved.

Modules, one per concern of `src/index.mjs`:

- `Wrappers` (`wrappers.dfy`): `Option`, used for the JavaScript `undefined` of optional fields.
- `JsStrings` (`js_strings.dfy`): string truthiness, `includes`, and `split`/`join` on one
  character, with the two round trips and a reference definition of substring occurrence.
- `Inputs` (`inputs.dfy`): `inputToArray`.
- `PathFilter` (`path_filter.dfy`): `filterOnPatterns` and the include-then-exclude pass.
  Glob matching enters as a `Matcher` function parameter.
- `Classifier` (`classifier.dfy`): keyword precedence and the path decision.
  `Classify` is a pure function and `Decide` is the imperative form of lines 176-205.
- `Approval` (`approval.dfy`): the decision part of `approvePr`, the review body default and
  the reading of the `approve` input.
- `Action` (`action.dfy`): the event-kind dispatch of `getChangeInformation`, the crash paths
  of an undefined message or file list, a whole run (`Run`) and the corrected run
  (`RunCorrected`, see Findings).

Three behaviours of the code shape the model:

- Approval follows only a `"true"` reached through the paths. The keyword branches return at
  lines 179 and 184, before the approval step at lines 207-213. So a success-keyword `"true"`
  never approves (`Action.SuccessKeywordNeverApproves`).
- Include and exclude patterns are lists split on `,` without trimming. They may hold empty
  patterns, for example after a trailing comma.
- A host answer other than 200 does not end the run (see Findings).

## Model

| member | source | states |
|---|---|---|
| `JsStrings.IncludesIffOccurs` | src/index.mjs:176-181 | the recursive `includes` holds exactly when the keyword occurs at some index of the message |
| `JsStrings.Includes` | src/index.mjs:176-181 | `message.includes(keyword)`: never holds for a keyword longer than the message, always holds for the empty keyword and for a prefix; `IncludesIffOccurs` ties it to occurrence at an index |
| `JsStrings.EmptySearchAlwaysIncluded` | src/index.mjs:176-181 | every message includes the empty string, which is why each keyword is guarded by its truthiness |
| `JsStrings.Split` | src/index.mjs:26 | `split(',')` yields at least one piece and no piece contains the separator |
| `JsStrings.JoinSplit` | src/index.mjs:26 | joining the pieces of a split with the separator gives back the input |
| `JsStrings.SplitJoin` | src/index.mjs:26 | splitting the join of a non-empty list of separator-free pieces gives back the list |
| `Inputs.InputToArray` | src/index.mjs:20-27 | an empty input gives `[]`; any other gives separator-free pieces that join back to the input |
| `Inputs.InputOfJoin` | src/index.mjs:20-27 | a joined list reads back as itself, except `[""]`, whose join is empty and reads as `[]` |
| `Inputs.PiecesAreNotTrimmed` | src/index.mjs:26 | `"src/**, docs/**"` reads as `["src/**", " docs/**"]`, keeping the space |
| `Inputs.TrailingCommaGivesEmptyPattern` | src/index.mjs:26 | `"src/**,"` reads as `["src/**", ""]` |
| `PathFilter.FilterOnPatterns` | src/index.mjs:11-18 | the result is a subsequence of the paths; a path is kept iff its match result equals `condition`; kept paths keep all their occurrences |
| `PathFilter.SubsequenceTransitive` | src/index.mjs:191-197 | a subsequence of a subsequence is a subsequence, so two filter passes still keep order |
| `PathFilter.FilteredPaths` | src/index.mjs:187-197 | what is left is an order-preserving selection of the changed paths; a path is left iff it changed, matches an include (when there are includes) and matches no exclude (when there are excludes) |
| `PathFilter.ExcludesNeverRevive` | src/index.mjs:191-197 | the result is a subsequence of the include survivors, which are a subsequence of the changed paths |
| `PathFilter.FilterPassesCommute` | src/index.mjs:11-18 | two filter passes give the same list in either order |
| `PathFilter.ExcludeFirstGivesSameResult` | src/index.mjs:191-197 | running the excludes before the includes would leave exactly the same paths |
| `PathFilter.NoPatternsKeepEverything` | src/index.mjs:187-197 | with no includes and no excludes every changed path is kept |
| `Classifier.Output` | src/index.mjs:176-201 | the published value is `"true"` or `"false"`; it is `"true"` iff the success keyword decided or the filtered list is non-empty |
| `Classifier.KeywordVerdict` | src/index.mjs:176-185 | success fires iff its keyword is non-empty and contained; fail fires iff success does not and its keyword is non-empty and contained |
| `Classifier.Classify` | src/index.mjs:176-201 | the paths decide iff no keyword fires, otherwise the keyword's verdict stands; the paths left are an order-preserving selection of the changed paths, exactly those passing the include and exclude tests |
| `Classifier.Decide` | src/index.mjs:176-205 | the early returns and the reassignments of `filteredPaths` compute exactly `Classify` |
| `Classifier.SuccessKeywordWins` | src/index.mjs:176-180 | a firing success keyword gives `"true"`, the same for any files, patterns and matcher |
| `Classifier.FailKeywordWins` | src/index.mjs:181-185 | when success does not fire, a firing fail keyword gives `"false"` for any files, patterns and matcher |
| `Classifier.EmptyKeywordsNeverFire` | src/index.mjs:176-187 | with both keywords empty the paths decide, although the empty string is in every message |
| `Classifier.PathDecision` | src/index.mjs:187-201 | when no keyword fires, `"true"` iff some changed path matches an include (if any) and no exclude (if any) |
| `Classifier.EmptyFilesFail` | src/index.mjs:187-201 | no changed paths and no keyword firing gives `"false"` |
| `Classifier.NoPatternsDecideOnFiles` | src/index.mjs:187-201 | no patterns and no keyword firing gives `"true"` iff something changed |
| `Classifier.IncludeScenario` | src/index.mjs:187-201 | paths `src/a.ts`, `docs/readme.md` with include `src/**` leave `src/a.ts` |
| `Classifier.ExcludeScenario` | src/index.mjs:187-201 | the same paths with exclude `docs/**` leave `src/a.ts` |
| `Classifier.ReleaseScenario` | src/index.mjs:176-180 | message `release: v2.0` with success keyword `release` decides by the keyword, whatever the files |
| `Approval.ApprovedReviews` | src/index.mjs:128 | the filtered reviews are all `APPROVED`, one per such review, and there are some iff a review is `APPROVED` |
| `Approval.HasPrNumber` | src/index.mjs:106-108 | `!pr` is false only for a defined, non-zero pull-request number |
| `Approval.ApprovePr` | src/index.mjs:104-144 | a review is submitted iff there is a non-zero PR number and no `APPROVED` review; it carries that number and the body; a missing number or an approved PR stops |
| `Approval.ReviewBody` | src/index.mjs:209 | the body is the configured message, or the default when that is empty; never empty |
| `Approval.ApproveFlag` | src/index.mjs:208 | corrected reading of `approve`: approval is requested iff the value is `true`, `True` or `TRUE`, so false spellings never request it and it never requests where the written test would not |
| `Approval.FalseStringRequestsApproval` | src/index.mjs:208 | the written test accepts the string `"false"`; the corrected reading rejects it |
| `Action.ConditionsOf` | src/index.mjs:150-159 | keywords are taken whole; a pattern list is empty iff its input is empty, its patterns hold no comma, and they join back into the input |
| `Action.PrNumber` | src/index.mjs:106 | the PR number is undefined unless the event is a pull request carrying its pull-request object, and then it is that object's number |
| `Action.ChangeInformation` | src/index.mjs:68-102 | a PR compares its base and head SHAs and takes its title; a push compares `before` with `after` and takes its head commit message; any other event takes the files and message of the commit of `ref`; the files are those of that answer, `hostFailed` iff its status is not 200, and only the commit lookup can leave the files undefined |
| `Action.Evaluate` | src/index.mjs:176-201 | it crashes exactly when an undefined message or file list is reached; whenever it does not crash its verdict is `Classify` of the message and files (an unread undefined value standing as empty) |
| `Action.Finish` | src/index.mjs:176-213 | the output is `Output` of the verdict or absent on a crash, failed iff absent; approval is attempted iff the paths decided `"true"` on a PR with approval requested, and is then `ApprovePr` with the review body |
| `Action.Run` | src/index.mjs:146-219 | the output is `Output` of the evaluated verdict, `"true"`/`"false"`, or absent on a crash; failed iff a host call failed or it crashed; approval is attempted iff the paths decided `"true"` on a PR with truthy `approve`, and then equals `ApprovePr` |
| `Action.RunPublishesClassification` | src/index.mjs:172-205 | with a defined message and file list the published value is the classifier's |
| `Action.SuccessKeywordNeverApproves` | src/index.mjs:176-213 | a success-keyword run publishes `"true"` and never reaches the approval step |
| `Action.NoKeywordsNoCrash` | src/index.mjs:68-102 | PR and push events always define the file list, so with no keyword their runs publish a value |
| `Action.UndefinedMessageCrashes` | src/index.mjs:176-218 | an undefined message with a keyword configured fails the run with nothing published and no approval |
| `Action.RunCorrected` | src/index.mjs:42-44 | corrected run: a failed run publishes nothing and approves nothing; approval needs a true `approve` |
| `Action.CorrectedAgreesWithRun` | src/index.mjs:146-219 | without a failed host call and with `approve` empty or true, the corrected run equals the written one |
| `Action.HostFailureStillPublishes` | src/index.mjs:42-44 | a PR whose compare request answers 202 is marked failed yet publishes `"true"` and is approved |
| `Action.CorrectedFailedRunPublishesNothing` | src/index.mjs:42-44 | in the corrected run a failed host call ends the run failed, with no output and no approval |
| `Action.ApproveFalseStillApproves` | src/index.mjs:207-213 | as written, `approve: "false"` approves a PR whose paths decided `"true"` |
| `Action.CorrectedDeclinesFalse` | src/index.mjs:207-213 | in the corrected run a false spelling of `approve` never reaches the approval step |

## Findings

| source | as written | input that shows it | evidently intended | confidence | as-written member | corrected member |
|---|---|---|---|---|---|---|
| src/index.mjs:42-44 (same at 61-63) | a status other than 200 calls `setFailed` and then carries on with the response | a `pull_request` event whose compare request answers 202, a success status other than 200 that the HTTP client returns without throwing, with one changed file, no keywords, no patterns, `approve: "true"` | the run stops after reporting the failure and publishes nothing | medium (the HTTP client throws on error statuses, so only success statuses other than 200 reach this branch), not executed | `Action.HostFailureStillPublishes` | `Action.CorrectedFailedRunPublishesNothing` |
| src/index.mjs:164, 208 | `approve` is tested as a raw string, so any non-empty value requests approval | `approve: "false"` on a pull request whose paths decide `"true"` | only a true value of the flag requests approval | high, not executed | `Action.ApproveFalseStillApproves` | `Action.CorrectedDeclinesFalse` |

## Left out

- Glob matching (`multimatch` with `{dot: true}`, `*`, `**`, `?`, brackets, `!` negation) is a library the model does not describe. It enters as a `Matcher` function parameter, and every property holds for every matcher.
- The HTTP calls (`compareCommits`, `getCommit`, `listReviews`, `createReview`) and the token are modelled only by their answers, as the fields of `Host`. Requests that throw, pagination of the changed files and of the reviews, and an answer without `files` are not modelled.
- `core.getInput` is not modelled. It trims whitespace and yields `''` for an absent input, so `InputToArray` takes a string, and its `null` test is covered by the empty string. The required `token` input is not modelled.
- Logging (`core.info`, `debug`, `warning`, `error`) is not modelled. `setOutput` and `setFailed` appear only as the `output` and `failed` fields of `RunOutcome`.
- The ambient `context` is the explicit `Event` argument. `async`/`await` is sequential here and is not modelled.
- A PR number is an integer. A `NaN` number, which is also falsy, is not modelled.
- Exceptions other than the `TypeError` of an undefined message or file list are not modelled. One example is an approval request that fails.
- `Action.ChangeInformation` is a function, not a method: every branch of the source's `switch` overwrites both fields of `details`, so its initial values are never observed.
- `Action.Run` is a function over the whole run. The step-by-step reassignment of `filteredPaths` is the method `Classifier.Decide`, proved equal to `Classifier.Classify`.
- `Approval.ApproveFlag` reads any value other than `true`, `True` or `TRUE` as false. A strict boolean reader would reject such values with an error instead.
