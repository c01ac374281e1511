/** `inputToArray`: a comma-separated action input read as a list of patterns. */
module Inputs {

  import opened JsStrings

  const SEPARATOR: char := ','

  /** An empty input gives no patterns; any other input gives its comma-separated pieces,
      untrimmed, which join back into the input. (The action's input reader yields `''` for an
      absent input, so the `null` test of the source is covered by the empty string.) */
  function InputToArray(value: string): (patterns: seq<string>)
    ensures value == "" ==> patterns == []
    ensures value != "" ==> |patterns| >= 1 && Join(patterns, SEPARATOR) == value
    ensures forall i :: 0 <= i < |patterns| ==> SEPARATOR !in patterns[i]
  {
    if value != "" then
      JoinSplit(value, SEPARATOR);
      Split(value, SEPARATOR)
    else []
  }

  /** Reading back a joined list gives the list, unless the join is the empty string
      (the list `[""]`), which reads as no patterns at all. */
  lemma InputOfJoin(patterns: seq<string>)
    requires |patterns| >= 1
    requires forall i :: 0 <= i < |patterns| ==> SEPARATOR !in patterns[i]
    ensures Join(patterns, SEPARATOR) != "" ==> InputToArray(Join(patterns, SEPARATOR)) == patterns
    ensures Join(patterns, SEPARATOR) == "" <==> patterns == [""]
  {
    SplitJoin(patterns, SEPARATOR);
  }

  /** Pieces are not trimmed: a space after a comma stays part of the next pattern. */
  lemma PiecesAreNotTrimmed()
    ensures InputToArray("src/**, docs/**") == ["src/**", " docs/**"]
  {
    var parts := ["src/**", " docs/**"];
    assert Join(parts, SEPARATOR) == parts[0] + [SEPARATOR] + parts[1];
    assert parts[0] + [SEPARATOR] + parts[1] == "src/**, docs/**";
    SplitJoin(parts, SEPARATOR);
  }

  /** A trailing comma yields an empty last pattern. */
  lemma TrailingCommaGivesEmptyPattern()
    ensures InputToArray("src/**,") == ["src/**", ""]
  {
    var parts := ["src/**", ""];
    assert Join(parts, SEPARATOR) == parts[0] + [SEPARATOR] + parts[1];
    assert parts[0] + [SEPARATOR] + parts[1] == "src/**,";
    SplitJoin(parts, SEPARATOR);
  }
}
