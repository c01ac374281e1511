/** `filterOnPatterns` and the include-then-exclude pass of the action. Glob matching is done
    by a library the model does not describe; it enters as a `Matcher`, and every statement
    below holds whatever the matcher is. */
module PathFilter {

  /** `multimatch(path, patterns, {dot: true}).includes(path)`: whether `path` is matched by
      the pattern list. */
  type Matcher = (string, seq<string>) -> bool

  /** `xs` is `ys` with some elements left out, the rest kept in order. */
  predicate IsSubsequence(xs: seq<string>, ys: seq<string>)
    decreases |ys|
  {
    if xs == [] then true
    else if ys == [] then false
    else (xs[0] == ys[0] && IsSubsequence(xs[1..], ys[1..])) || IsSubsequence(xs, ys[1..])
  }

  lemma {:induction false} SubsequenceTransitive(xs: seq<string>, ys: seq<string>, zs: seq<string>)
    requires IsSubsequence(xs, ys) && IsSubsequence(ys, zs)
    ensures IsSubsequence(xs, zs)
    decreases |zs|
  {
    if xs != [] {
      if ys[0] == zs[0] && IsSubsequence(ys[1..], zs[1..]) {
        if xs[0] == ys[0] && IsSubsequence(xs[1..], ys[1..]) {
          SubsequenceTransitive(xs[1..], ys[1..], zs[1..]);
        } else {
          SubsequenceTransitive(xs, ys[1..], zs[1..]);
        }
      } else {
        SubsequenceTransitive(xs, ys, zs[1..]);
      }
    }
  }

  /** The paths whose match against `patterns` equals `condition`, in their original order:
      every kept path has that match result, every dropped path has the other one, and each
      kept path keeps all of its occurrences. */
  function FilterOnPatterns(paths: seq<string>, patterns: seq<string>, condition: bool, matches: Matcher): (kept: seq<string>)
    ensures IsSubsequence(kept, paths)
    ensures forall p :: p in kept <==> p in paths && matches(p, patterns) == condition
    ensures forall p :: multiset(kept)[p] == if matches(p, patterns) == condition then multiset(paths)[p] else 0
    decreases |paths|
  {
    if paths == [] then []
    else
      var rest := FilterOnPatterns(paths[1..], patterns, condition, matches);
      assert paths == [paths[0]] + paths[1..];
      if matches(paths[0], patterns) == condition then
        assert ([paths[0]] + rest)[1..] == rest;
        [paths[0]] + rest
      else rest
  }

  /** Lines 187-197 of the action: the changed paths, narrowed to those matching an include
      pattern when there are include patterns, then stripped of those matching an exclude
      pattern when there are exclude patterns. What is left keeps the order of the changed
      paths, and a path is left exactly when it changed, matches an include pattern (if there
      are any) and matches no exclude pattern (if there are any). */
  function FilteredPaths(files: seq<string>, includes: seq<string>, excludes: seq<string>, matches: Matcher): (left: seq<string>)
    ensures IsSubsequence(left, files)
    ensures forall p :: p in left <==>
      p in files && (|includes| > 0 ==> matches(p, includes)) && (|excludes| > 0 ==> !matches(p, excludes))
  {
    var included := IncludeStage(files, includes, matches);
    var left := if |excludes| > 0 then FilterOnPatterns(included, excludes, false, matches) else included;
    SubsequenceReflexive(files);
    SubsequenceReflexive(included);
    SubsequenceTransitive(left, included, files);
    left
  }

  function IncludeStage(files: seq<string>, includes: seq<string>, matches: Matcher): seq<string>
  {
    if |includes| > 0 then FilterOnPatterns(files, includes, true, matches) else files
  }

  lemma SubsequenceReflexive(xs: seq<string>)
    ensures IsSubsequence(xs, xs)
  {
  }

  /** Excludes act only on the survivors of the includes: the result is a subsequence of the
      include stage, which is a subsequence of the changed paths, so no path dropped by the
      includes comes back and the order of the changed paths is kept. */
  lemma {:induction false} ExcludesNeverRevive(files: seq<string>, includes: seq<string>, excludes: seq<string>, matches: Matcher)
    ensures IsSubsequence(FilteredPaths(files, includes, excludes, matches), IncludeStage(files, includes, matches))
    ensures IsSubsequence(IncludeStage(files, includes, matches), files)
    ensures IsSubsequence(FilteredPaths(files, includes, excludes, matches), files)
  {
    var included := IncludeStage(files, includes, matches);
    SubsequenceReflexive(files);
    SubsequenceReflexive(included);
  }

  /** Two filter passes commute. */
  lemma {:induction false} FilterPassesCommute(paths: seq<string>, first: seq<string>, c1: bool, second: seq<string>, c2: bool, matches: Matcher)
    ensures FilterOnPatterns(FilterOnPatterns(paths, first, c1, matches), second, c2, matches)
         == FilterOnPatterns(FilterOnPatterns(paths, second, c2, matches), first, c1, matches)
    decreases |paths|
  {
    if paths != [] {
      FilterPassesCommute(paths[1..], first, c1, second, c2, matches);
    }
  }

  /** Hence applying the excludes before the includes would decide the same paths: the
      include-then-exclude order of the action does not affect the result. */
  lemma ExcludeFirstGivesSameResult(files: seq<string>, includes: seq<string>, excludes: seq<string>, matches: Matcher)
    requires |includes| > 0 && |excludes| > 0
    ensures FilteredPaths(files, includes, excludes, matches)
         == FilterOnPatterns(FilterOnPatterns(files, excludes, false, matches), includes, true, matches)
  {
    FilterPassesCommute(files, includes, true, excludes, false, matches);
  }

  /** No include and no exclude patterns: every changed path is kept. */
  lemma NoPatternsKeepEverything(files: seq<string>, matches: Matcher)
    ensures FilteredPaths(files, [], [], matches) == files
  {
  }
}
