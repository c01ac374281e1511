/** The decision of the action (lines 176-205 of src/index.mjs): keyword precedence on the
    change message, then the include/exclude filtering of the changed paths. */
module Classifier {

  import opened Wrappers
  import opened JsStrings
  import opened PathFilter

  /** The output values published under the `result` key. */
  const SUCCESS: string := "true"
  const FAIL: string := "false"

  /** The configured conditions: the two message keywords (empty when not configured) and
      the include and exclude pattern lists. */
  datatype Conditions = Conditions(
    successKeyword: string,
    failKeyword: string,
    includes: seq<string>,
    excludes: seq<string>)

  /** Which branch decided: the success keyword, the fail keyword, or the paths left after
      filtering. */
  datatype Verdict = SuccessKeyword | FailKeyword | Paths(filtered: seq<string>)

  /** The value published for a verdict: "true" for the success keyword or a non-empty
      filtered list, "false" otherwise. */
  function Output(v: Verdict): (value: string)
    ensures value == SUCCESS || value == FAIL
    ensures value == SUCCESS <==> v.SuccessKeyword? || (v.Paths? && |v.filtered| > 0)
  {
    match v
    case SuccessKeyword => SUCCESS
    case FailKeyword => FAIL
    case Paths(filtered) => if |filtered| > 0 then SUCCESS else FAIL
  }

  /** The keyword stage: a non-empty success keyword contained in the message decides
      "true"; otherwise a non-empty fail keyword contained in it decides "false"; otherwise
      the keywords decide nothing. */
  function KeywordVerdict(message: string, successKeyword: string, failKeyword: string): (v: Option<Verdict>)
    ensures v == Some(SuccessKeyword) <==> Truthy(successKeyword) && Includes(message, successKeyword)
    ensures v == Some(FailKeyword) <==>
      !(Truthy(successKeyword) && Includes(message, successKeyword)) && Truthy(failKeyword) && Includes(message, failKeyword)
    ensures v.None? || v == Some(SuccessKeyword) || v == Some(FailKeyword)
  {
    if Truthy(successKeyword) && Includes(message, successKeyword) then Some(SuccessKeyword)
    else if Truthy(failKeyword) && Includes(message, failKeyword) then Some(FailKeyword)
    else None
  }

  /** The whole decision for a defined message and file list: the paths decide exactly when
      no keyword fires, and then what they leave is an order-preserving selection of the
      changed paths, those that match an include pattern (if any) and no exclude pattern
      (if any). */
  function Classify(message: string, files: seq<string>, c: Conditions, matches: Matcher): (v: Verdict)
    ensures v.Paths? <==> KeywordVerdict(message, c.successKeyword, c.failKeyword).None?
    ensures !v.Paths? ==> Some(v) == KeywordVerdict(message, c.successKeyword, c.failKeyword)
    ensures v.Paths? ==> IsSubsequence(v.filtered, files)
    ensures v.Paths? ==> forall p :: p in v.filtered <==>
      p in files && (|c.includes| > 0 ==> matches(p, c.includes)) && (|c.excludes| > 0 ==> !matches(p, c.excludes))
  {
    match KeywordVerdict(message, c.successKeyword, c.failKeyword)
    case Some(v) => v
    case None => Paths(FilteredPaths(files, c.includes, c.excludes, matches))
  }

  /** Lines 176-205 as the action runs them: two early returns for the keywords, then
      `filteredPaths` reassigned by at most two filter passes. */
  method Decide(message: string, files: seq<string>, c: Conditions, matches: Matcher) returns (v: Verdict)
    ensures v == Classify(message, files, c, matches)
  {
    if Truthy(c.successKeyword) && Includes(message, c.successKeyword) {
      return SuccessKeyword;
    } else if Truthy(c.failKeyword) && Includes(message, c.failKeyword) {
      return FailKeyword;
    }
    var filteredPaths := files;
    if |c.includes| > 0 {
      filteredPaths := FilterOnPatterns(filteredPaths, c.includes, true, matches);
    }
    if |c.excludes| > 0 {
      filteredPaths := FilterOnPatterns(filteredPaths, c.excludes, false, matches);
    }
    return Paths(filteredPaths);
  }

  /** Success-keyword precedence: once the success keyword is non-empty and in the message,
      the decision is "true" and neither the files, the patterns nor the matcher matter. */
  lemma SuccessKeywordWins(message: string, files: seq<string>, c: Conditions, matches: Matcher,
                           otherFiles: seq<string>, otherIncludes: seq<string>, otherExcludes: seq<string>, otherMatches: Matcher)
    requires Truthy(c.successKeyword) && Includes(message, c.successKeyword)
    ensures Classify(message, files, c, matches) == SuccessKeyword
    ensures Classify(message, files, c, matches)
         == Classify(message, otherFiles, c.(includes := otherIncludes, excludes := otherExcludes), otherMatches)
    ensures Output(Classify(message, files, c, matches)) == SUCCESS
  {
  }

  /** Fail-keyword precedence over the paths: when the success keyword does not fire and the
      fail keyword is non-empty and in the message, the decision is "false" whatever the
      files, patterns and matcher. */
  lemma FailKeywordWins(message: string, files: seq<string>, c: Conditions, matches: Matcher,
                        otherFiles: seq<string>, otherIncludes: seq<string>, otherExcludes: seq<string>, otherMatches: Matcher)
    requires !(Truthy(c.successKeyword) && Includes(message, c.successKeyword))
    requires Truthy(c.failKeyword) && Includes(message, c.failKeyword)
    ensures Classify(message, files, c, matches) == FailKeyword
    ensures Classify(message, files, c, matches)
         == Classify(message, otherFiles, c.(includes := otherIncludes, excludes := otherExcludes), otherMatches)
    ensures Output(Classify(message, files, c, matches)) == FAIL
  {
  }

  /** An empty keyword never fires, although the empty string is included in every message. */
  lemma EmptyKeywordsNeverFire(message: string, files: seq<string>, c: Conditions, matches: Matcher)
    requires c.successKeyword == "" && c.failKeyword == ""
    ensures Includes(message, c.successKeyword)
    ensures Classify(message, files, c, matches) == Paths(FilteredPaths(files, c.includes, c.excludes, matches))
  {
    EmptySearchAlwaysIncluded(message);
  }

  /** When no keyword fires the decision is "true" exactly when some changed path matches an
      include pattern (if there are any) and no exclude pattern (if there are any). */
  lemma PathDecision(message: string, files: seq<string>, c: Conditions, matches: Matcher)
    requires KeywordVerdict(message, c.successKeyword, c.failKeyword).None?
    ensures Output(Classify(message, files, c, matches)) == SUCCESS <==>
      exists p :: p in files && (|c.includes| > 0 ==> matches(p, c.includes)) && (|c.excludes| > 0 ==> !matches(p, c.excludes))
  {
    var left := FilteredPaths(files, c.includes, c.excludes, matches);
    if |left| > 0 {
      assert left[0] in left;
    }
  }

  /** No changed paths and no keyword firing: "false". */
  lemma EmptyFilesFail(message: string, c: Conditions, matches: Matcher)
    requires KeywordVerdict(message, c.successKeyword, c.failKeyword).None?
    ensures Output(Classify(message, [], c, matches)) == FAIL
  {
    PathDecision(message, [], c, matches);
  }

  /** No patterns and no keyword firing: "true" exactly when something changed. */
  lemma NoPatternsDecideOnFiles(message: string, files: seq<string>, c: Conditions, matches: Matcher)
    requires KeywordVerdict(message, c.successKeyword, c.failKeyword).None?
    requires c.includes == [] && c.excludes == []
    ensures Output(Classify(message, files, c, matches)) == SUCCESS <==> files != []
  {
    NoPatternsKeepEverything(files, matches);
  }

  /** Changed `src/a.ts` and `docs/readme.md`, one include pattern for everything under
      `src`, where the matcher takes the first path and not the second: only `src/a.ts` is
      left, so "true". */
  lemma IncludeScenario(matches: Matcher)
    requires matches("src/a.ts", ["src/**"]) && !matches("docs/readme.md", ["src/**"])
    ensures Classify("", ["src/a.ts", "docs/readme.md"], Conditions("", "", ["src/**"], []), matches)
         == Paths(["src/a.ts"])
  {
  }

  /** The same files, one exclude pattern for everything under `docs`, where the matcher
      takes the second path and not the first: only `src/a.ts` is left, so "true". */
  lemma ExcludeScenario(matches: Matcher)
    requires !matches("src/a.ts", ["docs/**"]) && matches("docs/readme.md", ["docs/**"])
    ensures Classify("", ["src/a.ts", "docs/readme.md"], Conditions("", "", [], ["docs/**"]), matches)
         == Paths(["src/a.ts"])
  {
  }

  /** Message `release: v2.0` with success keyword `release`: "true" without the paths. */
  lemma ReleaseScenario(files: seq<string>, matches: Matcher)
    ensures Classify("release: v2.0", files, Conditions("release", "", [], []), matches) == SuccessKeyword
  {
    assert StartsWith("release: v2.0", "release");
  }
}
