/**
 * The output check of the developer tasks (xtask/src/ci.rs,
 * `compare_expected_with_actual`). An example's expected output is compared
 * line by line with its actual output; an expected line is literal text in
 * which each `{{re:BODY}}` splices BODY in as a raw regular expression.
 * Reading the two files is left to the caller, and the regular expression
 * library (`regex::escape`, compiling and matching) is a pair of
 * parameters: `esc` escapes literal text and `isMatch(pattern, line)` is
 * `None` when the pattern does not compile and `Some(b)` otherwise.
 */
module CiCompare {
  import opened Wrappers
  import opened StrUtil

  const RE_OPEN := "{{re:"
  const RE_CLOSE := "}}"

  // ---- lines ----

  /** A line that ended in "\r\n" loses its carriage return. */
  function StripCr(l: string): string {
    if |l| > 0 && l[|l| - 1] == '\r' then l[..|l| - 1] else l
  }

  /** `str::lines`: the text split at each '\n', a carriage return before
      the '\n' dropped, and no empty line after a final newline. */
  function TextLines(s: string): (r: seq<string>)
    ensures |r| == |Lines(s)|
  {
    var parts := Split(s, "\n");
    var n := |parts| - 1;
    var ended := seq(n, i requires 0 <= i < n => StripCr(parts[i]));
    if parts[n] == "" then ended else ended + [parts[n]]
  }

  // ---- the pattern of one expected line ----

  /** The closing `}}` of a placeholder is not inside its `{{re:`. */
  lemma CloseAfterOpen(tail: string, e: nat)
    requires StartsWith(tail, RE_OPEN) && OccursAt(tail, RE_CLOSE, e)
    ensures e >= |RE_OPEN|
  {
    assert tail[e] == tail[e..e + 2][0] == '}';
    if e < 5 {
      assert false;
    }
  }

  /** The regular expression an expected line stands for (before anchoring):
      literal text escaped, each placeholder's body spliced in raw, and the
      rest of a line with an unclosed `{{re:` escaped as literal text. */
  function PatternOf(line: string, esc: string -> string): string
    decreases |line|
  {
    match Find(line, RE_OPEN)
    case None => esc(line)
    case Some(start) =>
      var head, tail := line[..start], line[start..];
      assert StartsWith(tail, RE_OPEN) by { assert tail[..5] == line[start..start + 5]; }
      match Find(tail, RE_CLOSE)
      case None => esc(head) + esc(tail) + PatternOf("", esc)
      case Some(end) =>
        CloseAfterOpen(tail, end);
        esc(head) + tail[5..end] + PatternOf(tail[end + 2..], esc)
  }

  lemma Assoc4(a: string, b: string, c: string, d: string)
    ensures a + b + c + d == a + (b + c + d)
  {
  }

  /** The pattern-building loop of `compare_expected_with_actual`. */
  method BuildPattern(exp: string, esc: string -> string) returns (pattern: string)
    ensures pattern == PatternOf(exp, esc)
  {
    pattern := "";
    var rest := exp;
    var start := Find(rest, RE_OPEN);
    while start.Some?
      invariant start == Find(rest, RE_OPEN)
      invariant PatternOf(exp, esc) == pattern + PatternOf(rest, esc)
      decreases |rest|
    {
      var head, tail := rest[..start.value], rest[start.value..];
      assert StartsWith(tail, RE_OPEN) by { assert tail[..5] == rest[start.value..start.value + 5]; }
      var end := Find(tail, RE_CLOSE);
      if end.Some? {
        CloseAfterOpen(tail, end.value);
        var body := tail[5..end.value];
        Assoc4(pattern, esc(head), body, PatternOf(tail[end.value + 2..], esc));
        pattern := pattern + esc(head) + body;
        rest := tail[end.value + 2..];
      } else {
        Assoc4(pattern, esc(head), esc(tail), PatternOf("", esc));
        pattern := pattern + esc(head) + esc(tail);
        rest := "";
      }
      start := Find(rest, RE_OPEN);
    }
    pattern := pattern + esc(rest);
  }

  // ---- what a pattern is, placeholder by placeholder ----

  /** A line without `{{re:` is literal text. */
  lemma PatternLiteral(line: string, esc: string -> string)
    requires !Contains(line, RE_OPEN)
    ensures PatternOf(line, esc) == esc(line)
  {
  }

  lemma OpenChars(s: string, q: nat)
    requires OccursAt(s, RE_OPEN, q)
    ensures s[q] == '{' && s[q + 1] == '{' && s[q + 2] == 'r' && s[q + 3] == 'e' && s[q + 4] == ':'
  {
    assert s[q..q + 5] == RE_OPEN;
  }

  /** `{{re:` cannot start inside text free of it and end in a following
      `{{re:`. */
  lemma OpenFirst(head: string, more: string)
    requires !Contains(head, RE_OPEN)
    ensures Find(head + (RE_OPEN + more), RE_OPEN) == Some(|head|)
  {
    var s := head + (RE_OPEN + more);
    forall q: nat | q < |head|
      ensures !OccursAt(s, RE_OPEN, q)
    {
      if OccursAt(s, RE_OPEN, q) {
        if q + 5 <= |head| {
          OccursInPrefix(head, RE_OPEN + more, RE_OPEN, q);
          assert Contains(head, RE_OPEN);
        } else {
          OpenChars(s, q);
          assert false;
        }
      }
    }
    OccursShifted(head, RE_OPEN + more, RE_OPEN, 0);
    FindIs(s, RE_OPEN, |head|);
  }

  /** The first `}}` after `{{re:` and a body that cannot run into it is
      the one right after the body. */
  lemma CloseFirst(body: string, rest: string)
    requires !Contains(body + "}", RE_CLOSE)
    ensures Find(RE_OPEN + body + (RE_CLOSE + rest), RE_CLOSE) == Some(5 + |body|)
  {
    var tail := RE_OPEN + body + (RE_CLOSE + rest);
    forall q: nat | q < 5 + |body|
      ensures !OccursAt(tail, RE_CLOSE, q)
    {
      if OccursAt(tail, RE_CLOSE, q) {
        assert StartsWith(tail, RE_OPEN) by { assert tail[..5] == RE_OPEN; }
        CloseAfterOpen(tail, q);
        assert tail[q..q + 2] == (body + "}")[q - 5..q - 3];
        assert OccursAt(body + "}", RE_CLOSE, q - 5);
      }
    }
    OccursShifted(RE_OPEN + body, RE_CLOSE + rest, RE_CLOSE, 0);
    FindIs(tail, RE_CLOSE, 5 + |body|);
  }

  /** A closed placeholder after literal text: the text escaped, then the
      body as it is. The body must not run into its own `}}`: it holds no
      `}}` and does not end in `}`. */
  lemma PatternPlaceholder(head: string, body: string, rest: string, esc: string -> string)
    requires !Contains(head, RE_OPEN) && !Contains(body + "}", RE_CLOSE)
    ensures PatternOf(head + RE_OPEN + body + RE_CLOSE + rest, esc) == esc(head) + body + PatternOf(rest, esc)
  {
    var tail := RE_OPEN + body + (RE_CLOSE + rest);
    var line := head + RE_OPEN + body + RE_CLOSE + rest;
    assert line == head + tail;
    OpenFirst(head, body + (RE_CLOSE + rest));
    assert RE_OPEN + (body + (RE_CLOSE + rest)) == tail;
    assert line[..|head|] == head && line[|head|..] == tail;
    CloseFirst(body, rest);
    assert tail[5..5 + |body|] == body;
    assert tail[5 + |body| + 2..] == rest;
  }

  /** An unclosed `{{re:` after literal text: the rest of the line is
      escaped as literal text too. */
  lemma PatternUnclosed(head: string, more: string, esc: string -> string)
    requires !Contains(head, RE_OPEN) && !Contains(RE_OPEN + more, RE_CLOSE)
    ensures PatternOf(head + RE_OPEN + more, esc) == esc(head) + esc(RE_OPEN + more) + esc("")
  {
    var line := head + RE_OPEN + more;
    assert line == head + (RE_OPEN + more);
    OpenFirst(head, more);
    assert line[..|head|] == head && line[|head|..] == RE_OPEN + more;
    assert !Contains("", RE_OPEN);
  }

  // ---- comparing the files ----

  datatype CompareError =
    | LineCountDiffers(expected: nat, actual: nat)
    | InvalidPattern(lineNo: nat)
    | LineDiffers(lineNo: nat, expectedLine: string, actualLine: string, pattern: string)

  /** The pattern is anchored to the whole line. */
  function Anchored(pattern: string): string { "^" + pattern + "$" }

  /** How an expected line fares against the actual line. */
  function LineCheck(exp: string, act: string, esc: string -> string, isMatch: (string, string) -> Option<bool>): Option<bool> {
    isMatch(Anchored(PatternOf(exp, esc)), act)
  }

  /** The lines from `i` on, compared in order until the first that fails. */
  function CompareFrom(es: seq<string>, acts: seq<string>, i: nat, esc: string -> string, isMatch: (string, string) -> Option<bool>): Result<(), CompareError>
    requires |es| == |acts| && i <= |es|
    decreases |es| - i
  {
    if i == |es| then Ok(())
    else match LineCheck(es[i], acts[i], esc, isMatch)
      case None => Err(InvalidPattern(i + 1))
      case Some(false) => Err(LineDiffers(i + 1, es[i], acts[i], Anchored(PatternOf(es[i], esc))))
      case Some(true) => CompareFrom(es, acts, i + 1, esc, isMatch)
  }

  /** `compare_expected_with_actual` on the two files' contents. Differing
      line counts are reported before any line is compared; with equal
      counts the comparison succeeds exactly when every line matches. */
  function Compare(expected: string, actual: string, esc: string -> string, isMatch: (string, string) -> Option<bool>): (r: Result<(), CompareError>)
    ensures var es, acts := TextLines(expected), TextLines(actual);
            (|es| != |acts| ==> r == Err(LineCountDiffers(|es|, |acts|))) &&
            (r.Ok? <==> |es| == |acts| && forall j | 0 <= j < |es| :: LineCheck(es[j], acts[j], esc, isMatch) == Some(true))
  {
    var es, acts := TextLines(expected), TextLines(actual);
    if |es| != |acts| then Err(LineCountDiffers(|es|, |acts|))
    else
      CompareFromOk(es, acts, 0, esc, isMatch);
      CompareFrom(es, acts, 0, esc, isMatch)
  }

  /** The comparison loop of `compare_expected_with_actual`. */
  method CompareExpectedWithActual(expected: string, actual: string, esc: string -> string, isMatch: (string, string) -> Option<bool>) returns (r: Result<(), CompareError>)
    ensures r == Compare(expected, actual, esc, isMatch)
  {
    var es, acts := TextLines(expected), TextLines(actual);
    if |es| != |acts| {
      return Err(LineCountDiffers(|es|, |acts|));
    }
    for idx := 0 to |es|
      invariant CompareFrom(es, acts, 0, esc, isMatch) == CompareFrom(es, acts, idx, esc, isMatch)
    {
      var pattern := BuildPattern(es[idx], esc);
      var anchored := "^" + pattern + "$";
      var m := isMatch(anchored, acts[idx]);
      if m.None? {
        return Err(InvalidPattern(idx + 1));
      }
      if !m.value {
        return Err(LineDiffers(idx + 1, es[idx], acts[idx], anchored));
      }
    }
    return Ok(());
  }

  /** All lines match exactly when the comparison succeeds. */
  lemma {:induction false} CompareFromOk(es: seq<string>, acts: seq<string>, i: nat, esc: string -> string, isMatch: (string, string) -> Option<bool>)
    requires |es| == |acts| && i <= |es|
    ensures CompareFrom(es, acts, i, esc, isMatch).Ok? <==>
            forall j | i <= j < |es| :: LineCheck(es[j], acts[j], esc, isMatch) == Some(true)
    decreases |es| - i
  {
    if i < |es| {
      CompareFromOk(es, acts, i + 1, esc, isMatch);
    }
  }

  /** A failure names the first line that does not match: every line
      before it matched. */
  lemma {:induction false} CompareFromFirstFailure(es: seq<string>, acts: seq<string>, i: nat, esc: string -> string, isMatch: (string, string) -> Option<bool>)
    requires |es| == |acts| && i <= |es| && CompareFrom(es, acts, i, esc, isMatch).Err?
    ensures var e := CompareFrom(es, acts, i, esc, isMatch).error;
            !e.LineCountDiffers? && i < e.lineNo <= |es| &&
            (forall j | i <= j < e.lineNo - 1 :: LineCheck(es[j], acts[j], esc, isMatch) == Some(true)) &&
            (e.InvalidPattern? <==> LineCheck(es[e.lineNo - 1], acts[e.lineNo - 1], esc, isMatch).None?) &&
            (e.LineDiffers? ==> LineCheck(es[e.lineNo - 1], acts[e.lineNo - 1], esc, isMatch) == Some(false) &&
                                e.expectedLine == es[e.lineNo - 1] && e.actualLine == acts[e.lineNo - 1])
    decreases |es| - i
  {
    if LineCheck(es[i], acts[i], esc, isMatch) == Some(true) {
      CompareFromFirstFailure(es, acts, i + 1, esc, isMatch);
    }
  }

  /** With an escape that the regular expressions match literally, files
      without placeholders compare equal exactly when their lines are
      equal. */
  lemma PlainFilesCompareExactly(expected: string, actual: string, esc: string -> string, isMatch: (string, string) -> Option<bool>)
    requires forall x: string, y: string :: isMatch(Anchored(esc(x)), y) == Some(x == y)
    requires forall j | 0 <= j < |TextLines(expected)| :: !Contains(TextLines(expected)[j], RE_OPEN)
    ensures Compare(expected, actual, esc, isMatch).Ok? <==> TextLines(expected) == TextLines(actual)
  {
    var es, acts := TextLines(expected), TextLines(actual);
    forall j | 0 <= j < |es| && j < |acts|
      ensures LineCheck(es[j], acts[j], esc, isMatch) == Some(es[j] == acts[j])
    {
      PatternLiteral(es[j], esc);
    }
    if |es| == |acts| && es != acts {
      var j :| 0 <= j < |es| && es[j] != acts[j];
    }
  }
}
