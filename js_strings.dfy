/** The JavaScript string operations the action relies on: truthiness of a string,
    `String.prototype.includes`, and `String.prototype.split` with a one-character separator
    (together with the `join` that undoes it). Strings are sequences of characters. */
module JsStrings {

  /** A JavaScript string is truthy exactly when it is not empty. */
  predicate Truthy(s: string) {
    s != ""
  }

  predicate StartsWith(s: string, prefix: string) {
    |prefix| <= |s| && s[..|prefix|] == prefix
  }

  /** `s.includes(search)`: `search` occurs somewhere in `s`. */
  predicate Includes(s: string, search: string)
    ensures Includes(s, search) ==> |search| <= |s|
    ensures search == "" ==> Includes(s, search)
    ensures StartsWith(s, search) ==> Includes(s, search)
    decreases |s|
  {
    StartsWith(s, search) || (|s| > 0 && Includes(s[1..], search))
  }

  /** Reference definition of an occurrence: `search` starts at index `i` of `s`. */
  ghost predicate OccursAt(s: string, search: string, i: int) {
    0 <= i && i + |search| <= |s| && s[i..i + |search|] == search
  }

  /** `Includes` finds an occurrence exactly when one exists. */
  lemma {:induction false} IncludesIffOccurs(s: string, search: string)
    ensures Includes(s, search) <==> exists i :: OccursAt(s, search, i)
    decreases |s|
  {
    if StartsWith(s, search) {
      assert OccursAt(s, search, 0);
    } else if |s| > 0 {
      IncludesIffOccurs(s[1..], search);
      if exists i :: OccursAt(s[1..], search, i) {
        var i :| OccursAt(s[1..], search, i);
        assert s[i + 1..i + 1 + |search|] == s[1..][i..i + |search|];
        assert OccursAt(s, search, i + 1);
      }
      if exists j :: OccursAt(s, search, j) {
        var j :| OccursAt(s, search, j);
        assert j != 0;
        assert s[1..][j - 1..j - 1 + |search|] == s[j..j + |search|];
        assert OccursAt(s[1..], search, j - 1);
      }
    }
  }

  /** The empty string is included in every string: a test `s.includes("")` alone would
      always succeed, which is why the action guards each keyword with its truthiness. */
  lemma EmptySearchAlwaysIncluded(s: string)
    ensures Includes(s, "")
  {
  }

  /** `s.split(sep)`: the pieces between separators, in order, untrimmed; the empty string
      splits into one empty piece. No piece contains the separator. */
  function Split(s: string, sep: char): (parts: seq<string>)
    ensures |parts| >= 1
    ensures forall i :: 0 <= i < |parts| ==> sep !in parts[i]
    decreases |s|
  {
    if s == [] then [""]
    else
      var rest := Split(s[1..], sep);
      if s[0] == sep then [""] + rest
      else [[s[0]] + rest[0]] + rest[1..]
  }

  /** `parts.join(sep)`. */
  function Join(parts: seq<string>, sep: char): string
    decreases |parts|
  {
    if |parts| == 0 then ""
    else if |parts| == 1 then parts[0]
    else parts[0] + [sep] + Join(parts[1..], sep)
  }

  /** Joining the pieces of a split gives back the original string. */
  lemma {:induction false} JoinSplit(s: string, sep: char)
    ensures Join(Split(s, sep), sep) == s
    decreases |s|
  {
    if s != [] {
      var rest := Split(s[1..], sep);
      JoinSplit(s[1..], sep);
      if s[0] == sep {
        assert Join(Split(s, sep), sep) == "" + [sep] + Join(rest, sep);
      } else if |rest| == 1 {
        assert Join(Split(s, sep), sep) == [s[0]] + rest[0];
      } else {
        assert Join(rest, sep) == rest[0] + [sep] + Join(rest[1..], sep);
        assert Split(s, sep)[1..] == rest[1..];
        assert Join(Split(s, sep), sep) == [s[0]] + rest[0] + [sep] + Join(rest[1..], sep);
      }
    }
  }

  /** Splitting a string whose head holds no separator glues that head onto the first piece. */
  lemma {:induction false} SplitAfterPlainPrefix(prefix: string, tail: string, sep: char)
    requires sep !in prefix
    ensures Split(prefix + tail, sep) == [prefix + Split(tail, sep)[0]] + Split(tail, sep)[1..]
    decreases |prefix|
  {
    if prefix == [] {
      var parts := Split(tail, sep);
      assert prefix + tail == tail && prefix + parts[0] == parts[0];
      assert parts == [parts[0]] + parts[1..];
    } else {
      SplitAfterPlainPrefix(prefix[1..], tail, sep);
      assert (prefix + tail)[1..] == prefix[1..] + tail;
      assert [prefix[0]] + (prefix[1..] + Split(tail, sep)[0]) == prefix + Split(tail, sep)[0];
    }
  }

  /** Splitting a join gives back the pieces, provided there is at least one and none holds
      the separator. */
  lemma {:induction false} SplitJoin(parts: seq<string>, sep: char)
    requires |parts| >= 1
    requires forall i :: 0 <= i < |parts| ==> sep !in parts[i]
    ensures Split(Join(parts, sep), sep) == parts
    decreases |parts|
  {
    if |parts| == 1 {
      SplitAfterPlainPrefix(parts[0], "", sep);
      assert parts[0] + "" == parts[0];
    } else {
      var tail := [sep] + Join(parts[1..], sep);
      SplitJoin(parts[1..], sep);
      assert tail[1..] == Join(parts[1..], sep);
      assert Split(tail, sep) == [""] + parts[1..];
      assert Join(parts, sep) == parts[0] + tail;
      SplitAfterPlainPrefix(parts[0], tail, sep);
      assert parts[0] + "" == parts[0];
      assert parts == [parts[0]] + parts[1..];
    }
  }
}
