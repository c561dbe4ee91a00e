/** Text helpers used by the string-producing parts of the model. */
module StrUtil {
  import opened Wrappers

  predicate IsDigit(c: char) { '0' <= c <= '9' }

  predicate IsAsciiAlnum(c: char) {
    IsDigit(c) || 'a' <= c <= 'z' || 'A' <= c <= 'Z'
  }

  /** Rust's `char::is_whitespace`: the Unicode `White_Space` property. */
  predicate IsSpace(c: char) {
    var n := c as int;
    || 9 <= n <= 13 || n == 0x20 || n == 0x85 || n == 0xA0 || n == 0x1680
    || 0x2000 <= n <= 0x200A || n == 0x2028 || n == 0x2029 || n == 0x202F
    || n == 0x205F || n == 0x3000
  }

  /** The number of bytes a character takes in UTF-8. */
  function Utf8Width(c: char): (n: nat)
    ensures 1 <= n <= 4 && (n == 1 <==> c as int < 0x80)
  {
    if c as int < 0x80 then 1 else if c as int < 0x800 then 2 else if c as int < 0x10000 then 3 else 4
  }

  /** Rust's `str::len`: the length of the UTF-8 encoding, the unit in which
      `str::find` reports positions. */
  function Utf8Len(s: string): (n: nat)
    ensures |s| <= n <= 4 * |s|
    decreases |s|
  {
    if |s| == 0 then 0 else Utf8Len(s[..|s| - 1]) + Utf8Width(s[|s| - 1])
  }

  lemma {:induction false} Utf8LenAppend(a: string, b: string)
    ensures Utf8Len(a + b) == Utf8Len(a) + Utf8Len(b)
    decreases |b|
  {
    if |b| == 0 {
      assert a + b == a;
    } else {
      assert (a + b)[..|a + b| - 1] == a + b[..|b| - 1];
      Utf8LenAppend(a, b[..|b| - 1]);
    }
  }

  /** The character index at which byte offset `b` of the UTF-8 encoding
      of `s` falls, or `None` when `b` is inside a character or past the
      end: where Rust's `str` slicing by byte offsets does not panic. */
  function ByteBoundary(s: string, b: nat): (r: Option<nat>)
    ensures r.Some? ==> r.value <= |s| && (b > 0 ==> r.value > 0)
    decreases |s|
  {
    if b == 0 then Some(0)
    else if |s| == 0 || Utf8Width(s[0]) > b then None
    else match ByteBoundary(s[1..], b - Utf8Width(s[0]))
      case None => None
      case Some(j) => Some(j + 1)
  }

  /** A byte offset is a boundary exactly at the character index whose
      prefix has that many bytes, and that index is the one found. */
  lemma {:induction false} ByteBoundaryIff(s: string, b: nat, j: nat)
    requires j <= |s|
    ensures Utf8Len(s[..j]) == b <==> ByteBoundary(s, b) == Some(j)
    decreases |s|
  {
    if j == 0 {
      assert s[..0] == [];
    } else {
      var w := Utf8Width(s[0]);
      assert s[..j] == [s[0]] + s[1..][..j - 1];
      Utf8LenAppend([s[0]], s[1..][..j - 1]);
      assert [s[0]][..0] == [];
      assert Utf8Len([s[0]]) == w;
      if b > 0 && w <= b {
        ByteBoundaryIff(s[1..], b - w, j - 1);
      }
    }
  }

  /** An ASCII text has one byte per character. */
  lemma {:induction false} Utf8LenAscii(s: string)
    requires forall i | 0 <= i < |s| :: s[i] as int < 0x80
    ensures Utf8Len(s) == |s|
    decreases |s|
  {
    if |s| > 0 {
      Utf8LenAscii(s[..|s| - 1]);
    }
  }

  function DigitChar(d: nat): (c: char)
    requires d < 10
    ensures IsDigit(c)
  {
    ['0', '1', '2', '3', '4', '5', '6', '7', '8', '9'][d]
  }

  function DigitValue(c: char): (d: nat)
    requires IsDigit(c)
    ensures d < 10
  {
    (c as int - '0' as int) as nat
  }

  /** Decimal rendering of a natural number, as `format!("{n}")` writes it. */
  function NatToString(n: nat): (s: string)
    decreases n
  {
    if n < 10 then [DigitChar(n)] else NatToString(n / 10) + [DigitChar(n % 10)]
  }

  predicate AllDigits(s: string) { forall i :: 0 <= i < |s| ==> IsDigit(s[i]) }

  /** The value of a non-empty string of decimal digits. */
  function DigitsValue(s: string): nat
    requires AllDigits(s)
    decreases |s|
  {
    if |s| == 0 then 0 else DigitsValue(s[..|s| - 1]) * 10 + DigitValue(s[|s| - 1])
  }

  lemma DigitCharValue(d: nat)
    requires d < 10
    ensures DigitValue(DigitChar(d)) == d
  {
  }

  lemma {:induction false} NatToStringDigits(n: nat)
    ensures |NatToString(n)| > 0 && AllDigits(NatToString(n))
    ensures DigitsValue(NatToString(n)) == n
    decreases n
  {
    if n >= 10 {
      NatToStringDigits(n / 10);
      var s, t := NatToString(n), NatToString(n / 10);
      assert s == t + [DigitChar(n % 10)];
      assert s[..|s| - 1] == t;
      DigitCharValue(n % 10);
      assert DigitsValue(s) == DigitsValue(t) * 10 + n % 10;
    }
  }

  lemma NatToStringInjective(i: nat, j: nat)
    requires NatToString(i) == NatToString(j)
    ensures i == j
  {
    NatToStringDigits(i);
    NatToStringDigits(j);
  }

  /** Rust's `str::parse::<u64>`-style parse: an optional `+`, then one or more
      digits, and a value below `bound`. */
  function ParseUnsigned(s: string, bound: nat): (r: Option<nat>)
    ensures r.Some? ==> r.value < bound
  {
    var digits := if |s| > 0 && s[0] == '+' then s[1..] else s;
    if |digits| > 0 && AllDigits(digits) && DigitsValue(digits) < bound then Some(DigitsValue(digits)) else None
  }

  /** `parse::<T>()` of a decimal rendering gives the number back. */
  lemma ParseOfNatToString(n: nat, bound: nat)
    requires n < bound
    ensures ParseUnsigned(NatToString(n), bound) == Some(n)
  {
    NatToStringDigits(n);
  }

  /** Elements joined with `sep` between consecutive ones (`Itertools::join`). */
  function Join(parts: seq<string>, sep: string): string
    decreases |parts|
  {
    if |parts| == 0 then "" else if |parts| == 1 then parts[0] else parts[0] + sep + Join(parts[1..], sep)
  }

  lemma JoinAppend(parts: seq<string>, x: string, sep: string)
    requires |parts| > 0
    ensures Join(parts + [x], sep) == Join(parts, sep) + sep + x
    decreases |parts|
  {
    if |parts| > 1 {
      assert (parts + [x])[1..] == parts[1..] + [x];
      JoinAppend(parts[1..], x, sep);
    } else {
      assert parts + [x] == [parts[0], x];
    }
  }

  predicate StartsWith(s: string, p: string) { |p| <= |s| && s[..|p|] == p }

  predicate EndsWith(s: string, p: string) { |p| <= |s| && s[|s| - |p|..] == p }

  predicate OccursAt(s: string, pat: string, i: nat) { i + |pat| <= |s| && s[i..i + |pat|] == pat }

  predicate Contains(s: string, pat: string) { exists i: nat | i <= |s| :: OccursAt(s, pat, i) }

  /** Position of the first occurrence of `pat` in `s` at or after `from` (`str::find`). */
  function FindFrom(s: string, pat: string, from: nat): (r: Option<nat>)
    ensures r.Some? ==> from <= r.value && OccursAt(s, pat, r.value)
    ensures r.Some? ==> forall j: nat :: from <= j < r.value ==> !OccursAt(s, pat, j)
    ensures r.None? ==> forall j: nat :: from <= j ==> !OccursAt(s, pat, j)
    decreases |s| - from
  {
    if from + |pat| > |s| then None
    else if s[from..from + |pat|] == pat then Some(from)
    else FindFrom(s, pat, from + 1)
  }

  function Find(s: string, pat: string): (r: Option<nat>)
    ensures r.Some? ==> OccursAt(s, pat, r.value)
    ensures r.Some? ==> forall j: nat :: j < r.value ==> !OccursAt(s, pat, j)
    ensures r.None? <==> !Contains(s, pat)
  {
    FindFrom(s, pat, 0)
  }

  /** `str::split(sep)` for a non-empty separator. */
  function Split(s: string, sep: string): (parts: seq<string>)
    requires |sep| > 0
    ensures |parts| > 0
    decreases |s|
  {
    match Find(s, sep)
    case None => [s]
    case Some(i) => [s[..i]] + Split(s[i + |sep|..], sep)
  }

  /** `str::split_once`: the text before and after the first occurrence. */
  function SplitOnce(s: string, pat: string): (r: Option<(string, string)>)
    ensures r.None? <==> !Contains(s, pat)
    ensures r.Some? ==> s == r.value.0 + pat + r.value.1
    ensures r.Some? ==> forall j: nat :: j < |r.value.0| ==> !OccursAt(s, pat, j)
  {
    match Find(s, pat)
    case None => None
    case Some(i) =>
      assert s == s[..i] + pat + s[i + |pat|..];
      Some((s[..i], s[i + |pat|..]))
  }

  /** `str::split_terminator('\n')`: the lines, without the empty piece
      after a final newline. */
  function Lines(s: string): seq<string> {
    var parts := Split(s, "\n");
    if parts[|parts| - 1] == "" then parts[..|parts| - 1] else parts
  }

  /** Joining the pieces of a split with the same separator gives the text back. */
  lemma {:induction false} JoinSplit(s: string, sep: string)
    requires |sep| > 0
    ensures Join(Split(s, sep), sep) == s
    decreases |s|
  {
    match Find(s, sep)
    case None =>
    case Some(i) =>
      var rest := s[i + |sep|..];
      JoinSplit(rest, sep);
      assert Split(s, sep) == [s[..i]] + Split(rest, sep);
      assert s == s[..i] + sep + rest;
  }

  /** A one-character separator is first found right after a piece
      without it. */
  lemma FindCharAfter(p: string, c: char, rest: string)
    requires forall j | 0 <= j < |p| :: p[j] != c
    ensures Find(p + [c] + rest, [c]) == Some(|p|)
  {
    var s := p + [c] + rest;
    assert OccursAt(s, [c], |p|) by { assert s[|p|..|p| + 1] == [c]; }
    forall j: nat | j < |p|
      ensures !OccursAt(s, [c], j)
    {
      assert s[j..j + 1][0] == s[j] == p[j];
    }
  }

  lemma FindCharNone(p: string, c: char)
    requires forall j | 0 <= j < |p| :: p[j] != c
    ensures Find(p, [c]) == None
  {
    forall j: nat | j <= |p|
      ensures !OccursAt(p, [c], j)
    {
      if j < |p| {
        assert p[j..j + 1][0] == p[j];
      }
    }
  }

  /** A piece without the separator character splits off first. */
  lemma SplitAtChar(p: string, c: char, rest: string)
    requires forall j | 0 <= j < |p| :: p[j] != c
    ensures Split(p + [c] + rest, [c]) == [p] + Split(rest, [c])
  {
    var s := p + [c] + rest;
    FindCharAfter(p, c, rest);
    assert s[..|p|] == p;
    assert s[|p| + 1..] == rest;
  }

  /** Splitting pieces joined by a character none of them holds gives the
      pieces back. */
  lemma {:induction false} SplitJoinChar(parts: seq<string>, c: char)
    requires |parts| > 0
    requires forall i, j | 0 <= i < |parts| && 0 <= j < |parts[i]| :: parts[i][j] != c
    ensures Split(Join(parts, [c]), [c]) == parts
    decreases |parts|
  {
    if |parts| == 1 {
      FindCharNone(parts[0], c);
    } else {
      var p, tail := parts[0], parts[1..];
      forall i, j | 0 <= i < |tail| && 0 <= j < |tail[i]| ensures tail[i][j] != c {
        assert tail[i] == parts[i + 1];
      }
      SplitJoinChar(tail, c);
      assert forall j | 0 <= j < |p| :: p[j] != c;
      SplitJoinStep(p, c, tail);
      assert parts == [p] + tail;
    }
  }

  /** One more piece in front of a join that splits back. */
  lemma SplitJoinStep(p: string, c: char, tail: seq<string>)
    requires |tail| > 0 && forall j | 0 <= j < |p| :: p[j] != c
    requires Split(Join(tail, [c]), [c]) == tail
    ensures Split(Join([p] + tail, [c]), [c]) == [p] + tail
  {
    var rest := Join(tail, [c]);
    var s := p + [c] + rest;
    assert ([p] + tail)[1..] == tail;
    assert Join([p] + tail, [c]) == s;
    SplitAtChar(p, c, rest);
  }

  /** Every occurrence of `pat` replaced by `rep`, scanning left to right
      and going on after each replaced occurrence (`str::replace`). */
  function ReplaceAll(s: string, pat: string, rep: string): string
    requires |pat| > 0
    decreases |s|
  {
    if |s| < |pat| then s
    else if StartsWith(s, pat) then rep + ReplaceAll(s[|pat|..], pat, rep)
    else [s[0]] + ReplaceAll(s[1..], pat, rep)
  }

  lemma {:induction false} ReplaceAllSame(s: string, pat: string)
    requires |pat| > 0
    ensures ReplaceAll(s, pat, pat) == s
    decreases |s|
  {
    if |s| >= |pat| {
      if StartsWith(s, pat) {
        ReplaceAllSame(s[|pat|..], pat);
        assert s == pat + s[|pat|..];
      } else {
        ReplaceAllSame(s[1..], pat);
        assert s == [s[0]] + s[1..];
      }
    }
  }

  lemma OccursInPrefix(a: string, b: string, pat: string, q: nat)
    requires OccursAt(a + b, pat, q) && q + |pat| <= |a|
    ensures OccursAt(a, pat, q)
  {
    assert (a + b)[q..q + |pat|] == a[q..q + |pat|];
  }

  lemma OccursInSuffix(a: string, b: string, pat: string, q: nat)
    requires OccursAt(a + b, pat, q) && q >= |a|
    ensures OccursAt(b, pat, q - |a|)
  {
    assert (a + b)[q..q + |pat|] == b[q - |a|..q - |a| + |pat|];
  }

  /** Text without an occurrence is kept as it is. */
  lemma {:induction false} ReplaceAllNone(s: string, pat: string, rep: string)
    requires |pat| > 0 && !Contains(s, pat)
    ensures ReplaceAll(s, pat, rep) == s
    decreases |s|
  {
    if |s| >= |pat| {
      assert !OccursAt(s, pat, 0);
      assert s[..|pat|] == s[0..|pat|];
      if Contains(s[1..], pat) {
        var q: nat :| q <= |s[1..]| && OccursAt(s[1..], pat, q);
        OccursInTail(s, pat, q);
        assert false;
      }
      ReplaceAllNone(s[1..], pat, rep);
      assert s == [s[0]] + s[1..];
    }
  }

  lemma OccursShifted(a: string, b: string, pat: string, q: nat)
    requires OccursAt(b, pat, q)
    ensures OccursAt(a + b, pat, |a| + q)
  {
    assert (a + b)[|a| + q..|a| + q + |pat|] == b[q..q + |pat|];
  }

  /** An occurrence with none before it is the one `Find` reports. */
  lemma FindIs(s: string, pat: string, j: nat)
    requires OccursAt(s, pat, j)
    requires forall q: nat :: q < j ==> !OccursAt(s, pat, q)
    ensures Find(s, pat) == Some(j)
  {
    assert Contains(s, pat);
  }

  lemma OccursInTail(s: string, pat: string, q: nat)
    requires |s| > 0 && OccursAt(s[1..], pat, q)
    ensures OccursAt(s, pat, q + 1)
  {
    assert s[q + 1..q + 1 + |pat|] == s[1..][q..q + |pat|];
  }

  /** Where no occurrence starts, the first character is kept. */
  lemma ReplaceAllNotHere(s: string, pat: string, rep: string)
    requires |pat| > 0 && |s| > 0 && !OccursAt(s, pat, 0)
    ensures ReplaceAll(s, pat, rep) == [s[0]] + ReplaceAll(s[1..], pat, rep)
  {
    if |s| >= |pat| {
      assert s[..|pat|] == s[0..|pat|];
    } else {
      assert s == [s[0]] + s[1..];
    }
  }

  /** Text before the first occurrence is kept as it is. */
  lemma {:induction false} ReplaceAllSkip(x: string, y: string, pat: string, rep: string)
    requires |pat| > 0
    requires forall q: nat :: q < |x| ==> !OccursAt(x + y, pat, q)
    ensures ReplaceAll(x + y, pat, rep) == x + ReplaceAll(y, pat, rep)
    decreases |x|
  {
    if |x| > 0 {
      var s := x + y;
      assert s[1..] == x[1..] + y;
      forall q: nat | q < |x[1..]|
        ensures !OccursAt(x[1..] + y, pat, q)
      {
        if OccursAt(s[1..], pat, q) {
          OccursInTail(s, pat, q);
        }
      }
      ReplaceAllSkip(x[1..], y, pat, rep);
      ReplaceAllNotHere(s, pat, rep);
      assert x == [x[0]] + x[1..];
    } else {
      assert x + y == y;
    }
  }

  /** An occurrence at the front is replaced and scanning goes on after it. */
  lemma ReplaceAllHere(pat: string, z: string, rep: string)
    requires |pat| > 0
    ensures ReplaceAll(pat + z, pat, rep) == rep + ReplaceAll(z, pat, rep)
  {
    var s := pat + z;
    assert s[..|pat|] == pat;
    assert s[|pat|..] == z;
  }

  function TrimStart(s: string): (r: string)
    ensures |r| <= |s| && (|r| > 0 ==> !IsSpace(r[0]))
    decreases |s|
  {
    if |s| > 0 && IsSpace(s[0]) then TrimStart(s[1..]) else s
  }

  function TrimEnd(s: string): (r: string)
    ensures |r| <= |s| && (|r| > 0 ==> !IsSpace(r[|r| - 1]))
    decreases |s|
  {
    if |s| > 0 && IsSpace(s[|s| - 1]) then TrimEnd(s[..|s| - 1]) else s
  }

  /** `str::trim`. */
  function Trim(s: string): string { TrimEnd(TrimStart(s)) }

  /** Text that neither starts nor ends with white space is its own trim. */
  lemma TrimKeeps(s: string)
    requires |s| > 0 ==> !IsSpace(s[0]) && !IsSpace(s[|s| - 1])
    ensures Trim(s) == s
  {
  }

  /** White space added at either end does not change the trim. */
  lemma TrimPadded(s: string, c: char)
    requires IsSpace(c)
    ensures Trim([c] + s) == Trim(s) && Trim(s + [c]) == Trim(s)
  {
    assert ([c] + s)[1..] == s;
    TrimStartSnoc(s, c);
    assert (TrimStart(s) + [c])[..|TrimStart(s)|] == TrimStart(s);
  }

  lemma {:induction false} TrimStartSnoc(s: string, c: char)
    requires IsSpace(c)
    ensures TrimStart(s + [c]) == TrimStart(s) + [c] || (TrimStart(s + [c]) == [] && TrimStart(s) == [])
    decreases |s|
  {
    if |s| > 0 && IsSpace(s[0]) {
      assert (s + [c])[1..] == s[1..] + [c];
      TrimStartSnoc(s[1..], c);
    }
  }

  function Filter(s: string, keep: char -> bool): (r: string)
    ensures forall i :: 0 <= i < |r| ==> keep(r[i])
    decreases |s|
  {
    if |s| == 0 then "" else (if keep(s[0]) then [s[0]] else "") + Filter(s[1..], keep)
  }

  function AsciiUpper(c: char): char { if 'a' <= c <= 'z' then (c as int - 32) as char else c }

  function AsciiLower(c: char): char { if 'A' <= c <= 'Z' then (c as int + 32) as char else c }

  function MapChars(s: string, f: char -> char): (r: string)
    ensures |r| == |s| && forall i :: 0 <= i < |s| ==> r[i] == f(s[i])
  {
    seq(|s|, i requires 0 <= i < |s| => f(s[i]))
  }

  function ToUpper(s: string): string { MapChars(s, AsciiUpper) }

  function ToLower(s: string): string { MapChars(s, AsciiLower) }

  /** `str::repeat`. */
  function Repeat(s: string, n: nat): string
    decreases n
  {
    if n == 0 then "" else s + Repeat(s, n - 1)
  }

  // ---- whitespace-separated words ----

  /** The length of the leading run of non-space characters. */
  function WordLen(s: string): (k: nat)
    ensures k <= |s| && forall i | 0 <= i < k :: !IsSpace(s[i])
    ensures k < |s| ==> IsSpace(s[k])
    decreases |s|
  {
    if |s| == 0 || IsSpace(s[0]) then 0 else 1 + WordLen(s[1..])
  }

  /** `str::split_whitespace`: the maximal runs of non-space characters. */
  function Words(s: string): seq<string>
    decreases |s|
  {
    if |s| == 0 then []
    else if IsSpace(s[0]) then Words(s[1..])
    else
      var k := WordLen(s);
      [s[..k]] + Words(s[k..])
  }

  /** A word: non-empty, without spaces. */
  predicate IsWord(w: string) {
    |w| > 0 && forall i | 0 <= i < |w| :: !IsSpace(w[i])
  }

  lemma {:induction false} WordLenOf(w: string, rest: string)
    requires forall i | 0 <= i < |w| :: !IsSpace(w[i])
    requires |rest| > 0 && IsSpace(rest[0])
    ensures WordLen(w + rest) == |w|
    decreases |w|
  {
    if |w| > 0 {
      assert (w + rest)[1..] == w[1..] + rest;
      WordLenOf(w[1..], rest);
    }
  }

  lemma {:induction false} WordLenWhole(w: string)
    requires forall i | 0 <= i < |w| :: !IsSpace(w[i])
    ensures WordLen(w) == |w|
    decreases |w|
  {
    if |w| > 0 {
      WordLenWhole(w[1..]);
    }
  }

  /** Splitting words joined by single spaces gives the words back. */
  lemma {:induction false} WordsOfJoin(ws: seq<string>)
    requires forall i | 0 <= i < |ws| :: IsWord(ws[i])
    ensures Words(Join(ws, " ")) == ws
    decreases |ws|
  {
    if |ws| == 1 {
      var w := ws[0];
      WordLenWhole(w);
      assert w[..|w|] == w && w[|w|..] == [];
    } else if |ws| > 1 {
      var w, rest := ws[0], Join(ws[1..], " ");
      var s := w + " " + rest;
      assert s == w + (" " + rest);
      WordLenOf(w, " " + rest);
      assert s[..|w|] == w;
      assert s[|w|..] == " " + rest;
      assert (" " + rest)[1..] == rest;
      WordsOfJoin(ws[1..]);
      assert ws == [w] + ws[1..];
    }
  }

  // ---- ordering and sorting ----

  /** Rust's `Ord` on strings: lexicographic, a prefix first. */
  predicate LexLe(a: string, b: string)
    decreases |a|
  {
    |a| == 0 || (|b| > 0 && (a[0] < b[0] || (a[0] == b[0] && LexLe(a[1..], b[1..]))))
  }

  lemma {:induction false} LexTotal(a: string, b: string)
    ensures LexLe(a, b) || LexLe(b, a)
    decreases |a|
  {
    if |a| > 0 && |b| > 0 && a[0] == b[0] {
      LexTotal(a[1..], b[1..]);
    }
  }

  lemma {:induction false} LexTrans(a: string, b: string, c: string)
    requires LexLe(a, b) && LexLe(b, c)
    ensures LexLe(a, c)
    decreases |a|
  {
    if |a| > 0 && a[0] == b[0] && b[0] == c[0] {
      LexTrans(a[1..], b[1..], c[1..]);
    }
  }

  lemma {:induction false} LexAntisym(a: string, b: string)
    requires LexLe(a, b) && LexLe(b, a)
    ensures a == b
    decreases |a|
  {
    if |a| > 0 {
      LexAntisym(a[1..], b[1..]);
      assert a == [a[0]] + a[1..] && b == [b[0]] + b[1..];
    }
  }

  predicate SortedBy<T>(v: seq<T>, key: T -> string) {
    forall i | 0 <= i < |v| - 1 :: LexLe(key(v[i]), key(v[i + 1]))
  }

  /** `x` placed before the first entry whose key is not below it. */
  function InsertBy<T>(x: T, v: seq<T>, key: T -> string): (r: seq<T>)
    ensures |r| == |v| + 1 && multiset(r) == multiset(v) + multiset{x}
    ensures r[0] == x || (|v| > 0 && r[0] == v[0])
    decreases |v|
  {
    if |v| == 0 || LexLe(key(x), key(v[0])) then [x] + v
    else
      assert v == [v[0]] + v[1..];
      [v[0]] + InsertBy(x, v[1..], key)
  }

  /** A stable sort by key: `sort_by_key`, or `sort` with the identity. */
  function SortBy<T>(v: seq<T>, key: T -> string): (r: seq<T>)
    ensures |r| == |v| && multiset(r) == multiset(v)
    decreases |v|
  {
    if |v| == 0 then []
    else
      assert v == [v[0]] + v[1..];
      InsertBy(v[0], SortBy(v[1..], key), key)
  }

  lemma {:induction false} InsertKeepsSorted<T>(x: T, v: seq<T>, key: T -> string)
    requires SortedBy(v, key)
    ensures SortedBy(InsertBy(x, v, key), key)
    decreases |v|
  {
    if |v| > 0 && !LexLe(key(x), key(v[0])) {
      LexTotal(key(x), key(v[0]));
      InsertKeepsSorted(x, v[1..], key);
      var tail := InsertBy(x, v[1..], key);
      assert InsertBy(x, v, key) == [v[0]] + tail;
      assert LexLe(key(v[0]), key(tail[0]));
    }
  }

  /** The result is sorted by key and a rearrangement of the input. */
  lemma {:induction false} SortBySorted<T>(v: seq<T>, key: T -> string)
    ensures SortedBy(SortBy(v, key), key) && multiset(SortBy(v, key)) == multiset(v)
    decreases |v|
  {
    if |v| > 0 {
      SortBySorted(v[1..], key);
      InsertKeepsSorted(v[0], SortBy(v[1..], key), key);
    }
  }
}
