/**
 * The Rust side of the generator (zngur-generator/src/rust.rs): symbol
 * mangling, the C++ type of every Rust type (`IntoCpp`), and the link names
 * the generated glue exports for functions, constructors and well-known
 * traits.
 */
module RustGen {
  import opened Wrappers
  import opened StrUtil
  import opened SeqUtil
  import opened ZngurDef
  import opened CppTypes

  // ---- mangle_name ----

  /** One entry of the rewrite table: a priority (1 is tried first at a
      position), the text to replace and its code letter. */
  datatype BadToken = BadToken(priority: nat, text: string, code: char)

  /** The rewrite table of `mangle_name`, in the source's order. */
  const BADS: seq<BadToken> := [
    BadToken(1, "::<", 'm'), BadToken(1, ">::", 'n'), BadToken(1, "->", 'a'),
    BadToken(2, "&", 'r'), BadToken(2, "=", 'e'), BadToken(2, "<", 'x'), BadToken(2, ">", 'y'),
    BadToken(2, "[", 'j'), BadToken(2, "]", 'k'), BadToken(2, "::", 's'), BadToken(2, ",", 'c'),
    BadToken(2, "+", 'l'), BadToken(2, "(", 'p'), BadToken(2, ")", 'q'), BadToken(2, "@", 'z')]

  /** The characters the table's texts are made of. */
  predicate BadChar(c: char) {
    c == ':' || c == '<' || c == '>' || c == '-' || c == '&' || c == '=' || c == '[' || c == ']' ||
    c == ',' || c == '+' || c == '(' || c == ')' || c == '@'
  }

  predicate NoneBad(s: string) { forall i :: 0 <= i < |s| ==> !BadChar(s[i]) }

  /** Every entry has a non-empty text. */
  predicate NonEmptyTexts(t: seq<BadToken>) {
    forall j :: 0 <= j < |t| ==> |t[j].text| > 0
  }

  /** Every entry's text starts with a table character. */
  predicate BadStarts(t: seq<BadToken>)
    requires NonEmptyTexts(t)
  {
    forall j :: 0 <= j < |t| ==> BadChar(t[j].text[0])
  }

  /** No code letter is a table character. */
  predicate PlainCodes(t: seq<BadToken>) {
    forall j :: 0 <= j < |t| ==> !BadChar(t[j].code)
  }

  /** What the rewrite loop relies on in its table; the proofs below are
      stated over any such table `t`, and `BADS` is one. */
  predicate TableOk(t: seq<BadToken>) {
    NonEmptyTexts(t) && BadStarts(t) && PlainCodes(t)
  }

  /** Priorities never decrease along the table, and no two entries of one
      priority start with the same character. */
  predicate TableOrdered(t: seq<BadToken>)
    requires NonEmptyTexts(t)
  {
    (forall a, b :: 0 <= a < b < |t| ==> t[a].priority <= t[b].priority) &&
    (forall a, b :: 0 <= a < b < |t| && t[a].priority == t[b].priority ==> t[a].text[0] != t[b].text[0])
  }

  lemma BadsNonEmpty()
    ensures NonEmptyTexts(BADS)
  {
    forall j | 0 <= j < |BADS| ensures |BADS[j].text| > 0 {
      assert j in {0, 1, 2, 3, 4, 5, 6, 7, 8, 9, 10, 11, 12, 13, 14};
    }
  }

  lemma BadsStarts()
    ensures NonEmptyTexts(BADS) && BadStarts(BADS)
  {
    BadsNonEmpty();
    forall j | 0 <= j < |BADS| ensures BadChar(BADS[j].text[0]) {
      assert j in {0, 1, 2, 3, 4, 5, 6, 7, 8, 9, 10, 11, 12, 13, 14};
    }
  }

  lemma BadsCodes()
    ensures PlainCodes(BADS)
  {
    forall j | 0 <= j < |BADS| ensures !BadChar(BADS[j].code) {
      assert j in {0, 1, 2, 3, 4, 5, 6, 7, 8, 9, 10, 11, 12, 13, 14};
    }
  }

  lemma BadsOk()
    ensures TableOk(BADS)
  {
    BadsStarts();
    BadsCodes();
  }

  /** Where an entry sits in the table, read off its priority and the first
      character of its text; entries of one priority differ there. */
  function Slot(priority: nat, c: char): int {
    if priority == 1 then (if c == ':' then 0 else if c == '>' then 1 else 2)
    else if c == '&' then 3 else if c == '=' then 4 else if c == '<' then 5 else if c == '>' then 6
    else if c == '[' then 7 else if c == ']' then 8 else if c == ':' then 9 else if c == ',' then 10
    else if c == '+' then 11 else if c == '(' then 12 else if c == ')' then 13 else 14
  }

  lemma BadsSlots()
    ensures forall k | 0 <= k < |BADS| :: BADS[k].priority == (if k < 3 then 1 else 2) && |BADS[k].text| > 0
    ensures forall k | 0 <= k < |BADS| :: Slot(BADS[k].priority, BADS[k].text[0]) == k
  {
    forall k | 0 <= k < |BADS|
      ensures BADS[k].priority == (if k < 3 then 1 else 2) && |BADS[k].text| > 0 && Slot(BADS[k].priority, BADS[k].text[0]) == k
    {
      assert k in {0, 1, 2, 3, 4, 5, 6, 7, 8, 9, 10, 11, 12, 13, 14};
    }
  }

  lemma BadsOrdered()
    ensures TableOrdered(BADS)
  {
    BadsOk();
    BadsSlots();
  }

  predicate NotSpace(c: char) { !IsSpace(c) }

  /** The text a name starts from: `_zngur_`, the mangling base, the name with
      its whitespace removed, and a final `_`. */
  function InitialName(name: string, base: string): string {
    "_zngur_" + base + Filter(name, NotSpace) + "_"
  }

  /** A table entry found at a position. */
  datatype Hit = Hit(pos: nat, index: nat)

  /** The first table entry at or after index `j` that occurs at `i`. */
  function TokenFrom(t: seq<BadToken>, s: string, i: nat, j: nat): (r: Option<nat>)
    requires j <= |t|
    ensures r.Some? ==> j <= r.value < |t| && OccursAt(s, t[r.value].text, i)
    ensures r.Some? ==> forall k :: j <= k < r.value ==> !OccursAt(s, t[k].text, i)
    ensures r.None? ==> forall k :: j <= k < |t| ==> !OccursAt(s, t[k].text, i)
    decreases |t| - j
  {
    if j == |t| then None
    else if OccursAt(s, t[j].text, i) then Some(j)
    else TokenFrom(t, s, i, j + 1)
  }

  /** The first table entry (priority-1 entries come first) occurring at `i`. */
  function TokenAt(t: seq<BadToken>, s: string, i: nat): (r: Option<nat>)
    ensures r.Some? ==> r.value < |t| && OccursAt(s, t[r.value].text, i)
    ensures r.Some? ==> forall k :: 0 <= k < r.value ==> !OccursAt(s, t[k].text, i)
    ensures r.None? ==> forall k :: 0 <= k < |t| ==> !OccursAt(s, t[k].text, i)
  {
    TokenFrom(t, s, i, 0)
  }

  /** The first position at or after `from` where some table entry occurs. */
  function ScanFrom(t: seq<BadToken>, s: string, from: nat): Option<Hit>
    decreases |s| - from
  {
    if from >= |s| then None
    else if TokenAt(t, s, from).Some? then Some(Hit(from, TokenAt(t, s, from).value))
    else ScanFrom(t, s, from + 1)
  }

  /** The entry the rewrite loop picks: the minimum of `(position, entry)`
      over every entry's first occurrence (see `LeftmostIsMinimum`). */
  function Leftmost(t: seq<BadToken>, s: string): Option<Hit> {
    ScanFrom(t, s, 0)
  }

  /** A hit names an entry of the table that occurs at its position. */
  predicate ValidHit(t: seq<BadToken>, s: string, h: Hit) {
    h.index < |t| && OccursAt(s, t[h.index].text, h.pos)
  }

  /** One rewrite: the occurrence becomes `_`, and the entry's code letter and
      the decimal position are appended; the position is the byte offset of
      the occurrence in the UTF-8 text, as `str::find` reports it. */
  function Rewrite(t: seq<BadToken>, s: string, h: Hit): string
    requires ValidHit(t, s, h)
  {
    s[..h.pos] + "_" + s[h.pos + |t[h.index].text|..] + [t[h.index].code] + NatToString(Utf8Len(s[..h.pos]))
  }

  /** Number of table characters in a text; every rewrite lowers it. */
  function BadCount(s: string): nat
    decreases |s|
  {
    if |s| == 0 then 0 else BadCount(s[..|s| - 1]) + (if BadChar(s[|s| - 1]) then 1 else 0)
  }

  /** The rewrites applied until no table entry is left. */
  function MangleFrom(t: seq<BadToken>, s: string): string
    requires TableOk(t)
    decreases BadCount(s)
  {
    match Leftmost(t, s)
    case None => s
    case Some(h) =>
      LeftmostValid(t, s);
      RewriteLowersBadCount(t, s, h);
      MangleFrom(t, Rewrite(t, s, h))
  }

  /** The rewrites with the table of `mangle_name`. */
  function BadsMangle(s: string): string {
    BadsOk();
    MangleFrom(BADS, s)
  }

  /** `mangle_name` as a value: every mangled name starts with `_zngur_`
      and contains none of the rewritten texts. */
  function MangleName(name: string, base: string): (r: string)
    ensures StartsWith(r, "_zngur_")
    ensures forall j :: 0 <= j < |BADS| ==> !Contains(r, BADS[j].text)
  {
    BadsOk();
    var s := InitialName(name, base);
    assert s[..7] == "_zngur_";
    MangleKeepsZngurPrefix(BADS, s);
    MangleFromClean(BADS, s);
    BadsMangle(s)
  }

  /** `mangle_name`: the rewrite loop over a mutable string. */
  method Mangle(name: string, base: string) returns (r: string)
    ensures r == MangleName(name, base)
    ensures forall j :: 0 <= j < |BADS| ==> !Contains(r, BADS[j].text)
  {
    BadsOk();
    r := InitialName(name, base);
    var hit := Leftmost(BADS, r);
    while hit.Some?
      invariant hit == Leftmost(BADS, r)
      invariant BadsMangle(r) == MangleName(name, base)
      decreases BadCount(r)
    {
      LeftmostValid(BADS, r);
      RewriteLowersBadCount(BADS, r, hit.value);
      r := Rewrite(BADS, r, hit.value);
      hit := Leftmost(BADS, r);
    }
    LeftmostNoneClean(BADS, r);
  }

  // ---- the scan ----

  /** The scan stops at the first position holding a table entry. */
  lemma {:induction false} ScanFromSpec(t: seq<BadToken>, s: string, from: nat)
    requires NonEmptyTexts(t)
    ensures ScanFrom(t, s, from).Some? ==>
              var h := ScanFrom(t, s, from).value;
              from <= h.pos < |s| && TokenAt(t, s, h.pos) == Some(h.index) &&
              forall i :: from <= i < h.pos ==> TokenAt(t, s, i).None?
    ensures ScanFrom(t, s, from).None? ==> forall i :: from <= i ==> TokenAt(t, s, i).None?
    decreases |s| - from
  {
    if from >= |s| {
      forall i | from <= i ensures TokenAt(t, s, i).None? {
        var r := TokenAt(t, s, i);
      }
    } else if TokenAt(t, s, from).None? {
      ScanFromSpec(t, s, from + 1);
    }
  }

  lemma LeftmostValid(t: seq<BadToken>, s: string)
    requires NonEmptyTexts(t)
    ensures Leftmost(t, s).Some? ==> ValidHit(t, s, Leftmost(t, s).value)
  {
    ScanFromSpec(t, s, 0);
  }

  lemma {:induction false} BadCountAppend(a: string, b: string)
    ensures BadCount(a + b) == BadCount(a) + BadCount(b)
    decreases |b|
  {
    if |b| > 0 {
      assert (a + b)[..|a + b| - 1] == a + b[..|b| - 1];
      BadCountAppend(a, b[..|b| - 1]);
    } else {
      assert a + b == a;
    }
  }

  lemma {:induction false} BadCountNone(s: string)
    requires NoneBad(s)
    ensures BadCount(s) == 0
    decreases |s|
  {
    if |s| > 0 {
      BadCountNone(s[..|s| - 1]);
    }
  }

  /** What a rewrite appends holds no table character. */
  lemma TailPlain(code: char, pos: nat)
    requires !BadChar(code)
    ensures BadCount([code] + NatToString(pos)) == 0
  {
    NatToStringDigits(pos);
    var tail := [code] + NatToString(pos);
    forall i | 0 <= i < |tail| ensures !BadChar(tail[i]) {
      if i > 0 {
        assert IsDigit(tail[i]);
      }
    }
    BadCountNone(tail);
  }

  /** The count of a text with a run at `pos` that starts with a table
      character. */
  lemma RunCount(s: string, pos: nat, n: nat)
    requires 0 < n && pos + n <= |s| && BadChar(s[pos])
    ensures BadCount(s) >= BadCount(s[..pos]) + 1 + BadCount(s[pos + n..])
  {
    var a, c, rest, b := s[..pos], s[pos..pos + 1], s[pos + 1..pos + n], s[pos + n..];
    Split4(s, pos, pos + 1, pos + n);
    assert BadCount(c) == 1 by {
      assert c[..0] == [];
    }
    BadCountAppend(a, c);
    BadCountAppend(a + c, rest);
    BadCountAppend(a + c + rest, b);
  }

  /** Replacing a run that starts with a table character by `_`, and
      appending a plain letter and digits, lowers the count. */
  lemma ReplaceRunLowersBadCount(s: string, pos: nat, n: nat, code: char, num: nat)
    requires 0 < n && pos + n <= |s| && BadChar(s[pos]) && !BadChar(code)
    ensures BadCount(s[..pos] + "_" + s[pos + n..] + [code] + NatToString(num)) < BadCount(s)
  {
    RunCount(s, pos, n);
    var a, b, tail := s[..pos], s[pos + n..], [code] + NatToString(num);
    TailPlain(code, num);
    assert BadCount("_") == 0 by {
      assert "_"[..0] == [];
    }
    BadCountAppend(a, "_");
    BadCountAppend(a + "_", b);
    BadCountAppend(a + "_" + b, tail);
    AppendAssoc(a + "_" + b, [code], NatToString(num));
  }

  /** A rewrite removes at least one table character and adds none. */
  lemma RewriteLowersBadCount(t: seq<BadToken>, s: string, h: Hit)
    requires TableOk(t) && ValidHit(t, s, h)
    ensures BadCount(Rewrite(t, s, h)) < BadCount(s)
  {
    var tok := t[h.index];
    assert s[h.pos..h.pos + |tok.text|][0] == s[h.pos];
    ReplaceRunLowersBadCount(s, h.pos, |tok.text|, tok.code, Utf8Len(s[..h.pos]));
  }

  /** When nothing is found, no table entry occurs anywhere. */
  lemma LeftmostNoneClean(t: seq<BadToken>, s: string)
    requires NonEmptyTexts(t) && Leftmost(t, s).None?
    ensures forall j :: 0 <= j < |t| ==> !Contains(s, t[j].text)
  {
    ScanFromSpec(t, s, 0);
    forall j, i: nat | 0 <= j < |t| && i <= |s|
      ensures !OccursAt(s, t[j].text, i)
    {
      assert TokenAt(t, s, i).None?;
    }
  }

  /** The result of mangling contains none of the table's texts. */
  lemma {:induction false} MangleFromClean(t: seq<BadToken>, s: string)
    requires TableOk(t)
    ensures forall j :: 0 <= j < |t| ==> !Contains(MangleFrom(t, s), t[j].text)
    decreases BadCount(s)
  {
    match Leftmost(t, s)
    case None => LeftmostNoneClean(t, s);
    case Some(h) =>
      LeftmostValid(t, s);
      RewriteLowersBadCount(t, s, h);
      MangleFromClean(t, Rewrite(t, s, h));
  }

  /** The entry picked is the minimum of `(position, priority)` over the
      first occurrences of all entries, and no other entry of the same
      priority occurs at the same position; so it is the minimum Rust's `min`
      takes over `(position, (priority, text, code))`, whatever the
      tie-break on text and code would be. */
  lemma LeftmostIsMinimum(t: seq<BadToken>, s: string)
    requires NonEmptyTexts(t) && TableOrdered(t)
    ensures Leftmost(t, s).None? <==> forall j :: 0 <= j < |t| ==> Find(s, t[j].text).None?
    ensures Leftmost(t, s).Some? ==>
              var h := Leftmost(t, s).value;
              h.index < |t| && Find(s, t[h.index].text) == Some(h.pos) &&
              forall j :: 0 <= j < |t| && Find(s, t[j].text).Some? ==>
                h.pos < Find(s, t[j].text).value ||
                (h.pos == Find(s, t[j].text).value && (t[h.index].priority < t[j].priority || j == h.index))
  {
    ScanFromSpec(t, s, 0);
    match Leftmost(t, s)
    case None =>
      LeftmostNoneClean(t, s);
    case Some(h) =>
      FirstHitIsMinimum(t, s, h);
  }

  /** The scan's hit against every entry's first occurrence. */
  lemma FirstHitIsMinimum(t: seq<BadToken>, s: string, h: Hit)
    requires NonEmptyTexts(t) && TableOrdered(t)
    requires TokenAt(t, s, h.pos) == Some(h.index)
    requires forall i :: 0 <= i < h.pos ==> TokenAt(t, s, i).None?
    ensures h.index < |t| && Find(s, t[h.index].text) == Some(h.pos)
    ensures forall j :: 0 <= j < |t| && Find(s, t[j].text).Some? ==>
              h.pos < Find(s, t[j].text).value ||
              (h.pos == Find(s, t[j].text).value && (t[h.index].priority < t[j].priority || j == h.index))
  {
    var k := h.index;
    forall j, i: nat | 0 <= j < |t| && i < h.pos
      ensures !OccursAt(s, t[j].text, i)
    {
      assert TokenAt(t, s, i).None?;
    }
    assert Find(s, t[k].text) == Some(h.pos);
    forall j | 0 <= j < |t| && Find(s, t[j].text).Some?
      ensures h.pos < Find(s, t[j].text).value ||
              (h.pos == Find(s, t[j].text).value && (t[k].priority < t[j].priority || j == k))
    {
      var p := Find(s, t[j].text).value;
      if p == h.pos && j != k {
        SamePositionOrdered(t, s, k, j, p);
      }
    }
  }

  /** Two entries occurring at one position: the earlier one has the lower
      priority, since entries of equal priority start differently. */
  lemma SamePositionOrdered(t: seq<BadToken>, s: string, k: nat, j: nat, p: nat)
    requires NonEmptyTexts(t) && TableOrdered(t)
    requires k < j < |t| && OccursAt(s, t[k].text, p) && OccursAt(s, t[j].text, p)
    ensures t[k].priority < t[j].priority
  {
    assert s[p..p + |t[j].text|][0] == t[j].text[0];
    assert s[p..p + |t[k].text|][0] == t[k].text[0];
  }

  // ---- the prefix survives ----

  /** No table entry can start on a character that is not a table character. */
  lemma NoTokenOnPlainChar(t: seq<BadToken>, s: string, i: nat)
    requires TableOk(t)
    requires i < |s| && !BadChar(s[i])
    ensures TokenAt(t, s, i).None?
  {
    forall j | 0 <= j < |t| ensures !OccursAt(s, t[j].text, i) {
      if i + |t[j].text| <= |s| {
        assert s[i..i + |t[j].text|][0] == s[i];
      }
    }
  }

  /** Every rewrite lands at or after position 7, so `_zngur_` is kept. */
  lemma {:induction false} MangleKeepsZngurPrefix(t: seq<BadToken>, s: string)
    requires TableOk(t)
    requires StartsWith(s, "_zngur_")
    ensures StartsWith(MangleFrom(t, s), "_zngur_")
    decreases BadCount(s)
  {
    match Leftmost(t, s)
    case None =>
    case Some(h) =>
      ScanFromSpec(t, s, 0);
      forall i | 0 <= i < 7 ensures TokenAt(t, s, i).None? {
        assert s[i] == "_zngur_"[i];
        NoTokenOnPlainChar(t, s, i);
      }
      assert h.pos >= 7;
      LeftmostValid(t, s);
      RewriteLowersBadCount(t, s, h);
      var r := Rewrite(t, s, h);
      assert r[..7] == s[..7];
      MangleKeepsZngurPrefix(t, r);
  }

  // ---- worked examples ----

  lemma FilterKeepsAll(s: string)
    requires forall i :: 0 <= i < |s| ==> !IsSpace(s[i])
    ensures Filter(s, NotSpace) == s
    decreases |s|
  {
    if |s| > 0 {
      FilterKeepsAll(s[1..]);
    }
  }

  /** The scan skips characters that are not table characters and stops at
      a found entry. */
  lemma {:induction false} ScanFromStopsAt(t: seq<BadToken>, s: string, from: nat, k: nat, j: nat)
    requires TableOk(t)
    requires from <= k < |s|
    requires forall i :: from <= i < k ==> !BadChar(s[i])
    requires TokenAt(t, s, k) == Some(j)
    ensures ScanFrom(t, s, from) == Some(Hit(k, j))
    decreases k - from
  {
    if from < k {
      NoTokenOnPlainChar(t, s, from);
      ScanFromStopsAt(t, s, from + 1, k, j);
    }
  }

  lemma {:induction false} ScanFromNone(t: seq<BadToken>, s: string, from: nat)
    requires TableOk(t)
    requires forall i :: from <= i < |s| ==> !BadChar(s[i])
    ensures ScanFrom(t, s, from).None?
    decreases |s| - from
  {
    if from < |s| {
      NoTokenOnPlainChar(t, s, from);
      ScanFromNone(t, s, from + 1);
    }
  }

  /** The entry found at a position is the first one of the table occurring
      there. */
  lemma TokenAtIs(t: seq<BadToken>, s: string, i: nat, j: nat)
    requires j < |t| && OccursAt(s, t[j].text, i)
    requires forall k :: 0 <= k < j ==> !OccursAt(s, t[k].text, i)
    ensures TokenAt(t, s, i) == Some(j)
  {
    var r := TokenAt(t, s, i);
    assert r.Some?;
  }

  /** One step of the rewrite loop at a known position: nothing is found
      before `pos`, and no earlier entry of the table occurs there. */
  lemma MangleStep(t: seq<BadToken>, s: string, pos: nat, j: nat, num: nat, r: string)
    requires TableOk(t) && pos < |s| && j < |t|
    requires forall i :: 0 <= i < pos ==> !BadChar(s[i])
    requires OccursAt(s, t[j].text, pos)
    requires forall k :: 0 <= k < j ==> !OccursAt(s, t[k].text, pos)
    requires num == Utf8Len(s[..pos])
    requires r == s[..pos] + "_" + s[pos + |t[j].text|..] + [t[j].code] + NatToString(num)
    ensures MangleFrom(t, s) == MangleFrom(t, r)
  {
    TokenAtIs(t, s, pos, j);
    ScanFromStopsAt(t, s, 0, pos, j);
    assert Leftmost(t, s) == Some(Hit(pos, j));
    assert Rewrite(t, s, Hit(pos, j)) == r;
  }

  /** Nothing left to rewrite. */
  lemma MangleDone(t: seq<BadToken>, s: string)
    requires TableOk(t) && NoneBad(s)
    ensures MangleFrom(t, s) == s
  {
    ScanFromNone(t, s, 0);
  }

  lemma InitialPlain(name: string, base: string)
    requires forall i :: 0 <= i < |name| ==> !IsSpace(name[i])
    ensures InitialName(name, base) == "_zngur_" + base + name + "_"
  {
    FilterKeepsAll(name);
  }

  lemma DigitsPlain(n: nat)
    ensures NoneBad(NatToString(n))
  {
    NatToStringDigits(n);
    var d := NatToString(n);
    forall i | 0 <= i < |d| ensures !BadChar(d[i]) {
      assert IsDigit(d[i]);
    }
  }

  lemma NoneBadAppend(a: string, b: string)
    requires NoneBad(a) && NoneBad(b)
    ensures NoneBad(a + b)
  {
    forall i | 0 <= i < |a + b| ensures !BadChar((a + b)[i]) {
      if i >= |a| { assert (a + b)[i] == b[i - |a|]; }
    }
  }

  lemma NoSpaceAppend(a: string, b: string)
    requires forall i :: 0 <= i < |a| ==> !IsSpace(a[i])
    requires forall i :: 0 <= i < |b| ==> !IsSpace(b[i])
    ensures forall i :: 0 <= i < |a + b| ==> !IsSpace((a + b)[i])
  {
    forall i | 0 <= i < |a + b| ensures !IsSpace((a + b)[i]) {
      if i >= |a| { assert (a + b)[i] == b[i - |a|]; }
    }
  }

  /** `_zngur_` followed by plain texts is plain. */
  lemma PlainStart(base: string, a: string, rest: string)
    requires NoneBad(base) && NoneBad(a)
    ensures forall i :: 0 <= i < 7 + |base| + |a| ==> !BadChar(("_zngur_" + base + a + rest)[i])
  {
    assert NoneBad("_zngur_");
    NoneBadAppend("_zngur_", base);
    NoneBadAppend("_zngur_" + base, a);
    forall i | 0 <= i < 7 + |base| + |a| ensures !BadChar(("_zngur_" + base + a + rest)[i]) {
      assert ("_zngur_" + base + a + rest)[i] == ("_zngur_" + base + a)[i];
    }
  }

  lemma OccursShift(x: string, y: string, p: string)
    ensures OccursAt(x + y, p, |x|) <==> OccursAt(y, p, 0)
  {
    if |x| + |p| <= |x + y| {
      assert (x + y)[|x|..|x| + |p|] == y[0..|p|];
    }
  }

  /** A text that starts with a character cannot hold, at 0, an entry that
      starts with another. */
  lemma FirstCharDiffers(x: string, p: string)
    requires |x| > 0 && |p| > 0 && p[0] != x[0]
    ensures !OccursAt(x, p, 0)
  {
    if |p| <= |x| {
      assert x[0..|p|][0] == x[0];
    }
  }

  /** `_zngur_` takes seven bytes. */
  lemma ZngurBytes(base: string, a: string)
    ensures Utf8Len("_zngur_" + base + a) == 7 + Utf8Len(base) + Utf8Len(a)
  {
    Utf8LenAscii("_zngur_");
    Utf8LenAppend("_zngur_", base);
    Utf8LenAppend("_zngur_" + base, a);
  }

  lemma PrefixBytes(base: string, a: string, rest: string)
    ensures var s := "_zngur_" + base + a + rest;
            7 + |base| + |a| <= |s| && Utf8Len(s[..7 + |base| + |a|]) == 7 + Utf8Len(base) + Utf8Len(a)
  {
    var s := "_zngur_" + base + a + rest;
    assert s[..7 + |base| + |a|] == "_zngur_" + base + a;
    ZngurBytes(base, a);
  }

  /** The first rewrite of a name whose first table character follows a
      plain prefix `a`; what starts there is `tok + rest`. */
  lemma RewriteAfterPlain(t: seq<BadToken>, base: string, a: string, tok: string, rest: string, j: nat)
    requires TableOk(t) && NoneBad(base) && NoneBad(a) && j < |t| && t[j].text == tok
    requires forall k :: 0 <= k < j ==> !OccursAt(tok + rest, t[k].text, 0)
    ensures MangleFrom(t, "_zngur_" + base + a + tok + rest) ==
            MangleFrom(t, "_zngur_" + base + a + "_" + rest + [t[j].code] + NatToString(7 + Utf8Len(base) + Utf8Len(a)))
  {
    assert NoneBad("_zngur_");
    Utf8LenAscii("_zngur_");
    RewriteAfterPrefix(t, "_zngur_", base, a, tok, rest, j);
  }

  /** The same step after any plain prefix `z`. */
  lemma RewriteAfterPrefix(t: seq<BadToken>, z: string, base: string, a: string, tok: string, rest: string, j: nat)
    requires TableOk(t) && NoneBad(z) && NoneBad(base) && NoneBad(a) && j < |t| && t[j].text == tok
    requires forall k :: 0 <= k < j ==> !OccursAt(tok + rest, t[k].text, 0)
    ensures MangleFrom(t, z + base + a + tok + rest) ==
            MangleFrom(t, z + base + a + "_" + rest + [t[j].code] + NatToString(Utf8Len(z) + Utf8Len(base) + Utf8Len(a)))
  {
    PlainPrefix(z, base, a);
    StepPlainAt(t, z + base + a, tok, rest, j, Utf8Len(z) + Utf8Len(base) + Utf8Len(a));
  }

  lemma PlainPrefix(z: string, base: string, a: string)
    requires NoneBad(z) && NoneBad(base) && NoneBad(a)
    ensures NoneBad(z + base + a) && Utf8Len(z + base + a) == Utf8Len(z) + Utf8Len(base) + Utf8Len(a)
  {
    NoneBadAppend(z, base);
    NoneBadAppend(z + base, a);
    Utf8LenAppend(z, base);
    Utf8LenAppend(z + base, a);
  }

  /** The `@` entry is the last one and no earlier entry starts with `@`. */
  predicate AtEntryLast(t: seq<BadToken>)
    requires NonEmptyTexts(t)
  {
    |t| == 15 && t[14] == BadToken(2, "@", 'z') && forall k :: 0 <= k < 14 ==> t[k].text[0] != '@'
  }

  lemma AtNameStart(base: string, rest: string)
    requires forall i :: 0 <= i < |rest| ==> !IsSpace(rest[i])
    ensures InitialName("@" + rest, base) == "_zngur_" + base + "@" + (rest + "_")
  {
    NoSpaceAppend("@", rest);
    InitialPlain("@" + rest, base);
  }

  /** A name made of plain texts and a decimal number is left alone. */
  lemma MangleDonePlain(t: seq<BadToken>, pre: string, mid: string, n: nat)
    requires TableOk(t) && NoneBad(pre) && NoneBad(mid)
    ensures MangleFrom(t, "_zngur_" + pre + mid + NatToString(n)) == "_zngur_" + pre + mid + NatToString(n)
  {
    assert NoneBad("_zngur_");
    DigitsPlain(n);
    NoneBadAppend("_zngur_", pre);
    NoneBadAppend("_zngur_" + pre, mid);
    NoneBadAppend("_zngur_" + pre + mid, NatToString(n));
    MangleDone(t, "_zngur_" + pre + mid + NatToString(n));
  }

  lemma AtNameEnd(t: seq<BadToken>, base: string, rest: string, n: nat)
    requires TableOk(t) && NoneBad(base) && NoneBad(rest)
    ensures MangleFrom(t, "_zngur_" + base + "_" + (rest + "_") + "z" + NatToString(n)) ==
            "_zngur_" + base + "_" + rest + "_z" + NatToString(n)
  {
    AtTailPlain(rest);
    MangleDonePlain(t, base, "_" + rest + "_z", n);
    AtTailRegroup("_zngur_", base, rest, NatToString(n));
  }

  lemma AtTailPlain(rest: string)
    requires NoneBad(rest)
    ensures NoneBad("_" + rest + "_z")
  {
    assert NoneBad("_z") && NoneBad("_");
    NoneBadAppend("_", rest);
    NoneBadAppend("_" + rest, "_z");
  }

  lemma AtTailRegroup(z: string, base: string, rest: string, num: string)
    ensures z + base + "_" + (rest + "_") + "z" + num == z + base + ("_" + rest + "_z") + num
    ensures z + base + "_" + rest + "_z" + num == z + base + ("_" + rest + "_z") + num
  {
    assert "_" + (rest + "_") + "z" == "_" + rest + "_z";
  }

  lemma AtNameRewrite(t: seq<BadToken>, base: string, rest: string)
    requires TableOk(t) && AtEntryLast(t) && NoneBad(base)
    ensures MangleFrom(t, "_zngur_" + base + "@" + (rest + "_")) ==
            MangleFrom(t, "_zngur_" + base + "_" + (rest + "_") + "z" + NatToString(7 + Utf8Len(base)))
  {
    forall k | 0 <= k < 14 ensures !OccursAt("@" + (rest + "_"), t[k].text, 0) {
      FirstCharDiffers("@" + (rest + "_"), t[k].text);
    }
    assert NoneBad("");
    RewriteAfterPlain(t, base, "", "@", rest + "_", 14);
    assert Utf8Len("") == 0;
    assert "_zngur_" + base + "" == "_zngur_" + base;
    assert [t[14].code] == "z";
  }

  /** A name `@rest` (the panic symbols) is rewritten once, at the `@`. */
  lemma MangleAtNameIn(t: seq<BadToken>, base: string, rest: string)
    requires TableOk(t) && AtEntryLast(t)
    requires NoneBad(base) && NoneBad(rest) && forall i :: 0 <= i < |rest| ==> !IsSpace(rest[i])
    ensures MangleFrom(t, InitialName("@" + rest, base)) == "_zngur_" + base + "_" + rest + "_z" + NatToString(7 + Utf8Len(base))
  {
    AtNameStart(base, rest);
    AtNameRewrite(t, base, rest);
    AtNameEnd(t, base, rest, 7 + Utf8Len(base));
  }

  lemma BadsAtEntryLast()
    ensures TableOk(BADS) && AtEntryLast(BADS)
  {
    BadsOk();
    forall k | 0 <= k < 14 ensures BADS[k].text[0] != '@' {
      assert k in {0, 1, 2, 3, 4, 5, 6, 7, 8, 9, 10, 11, 12, 13};
    }
  }

  /** A name `@rest` over the mangling table: the panic symbols
      `@detect_panic` and `@take_panic` become `_zngur_<base>_detect_panic_z<n>`
      and `_zngur_<base>_take_panic_z<n>`, with `n` the position of the `@`. */
  lemma MangleAtName(base: string, rest: string)
    requires NoneBad(base) && NoneBad(rest) && forall i :: 0 <= i < |rest| ==> !IsSpace(rest[i])
    ensures MangleName("@" + rest, base) == "_zngur_" + base + "_" + rest + "_z" + NatToString(7 + Utf8Len(base))
  {
    BadsAtEntryLast();
    MangleAtNameIn(BADS, base, rest);
  }

  // ---- the examples documented beside `mangle_name` ----

  /** A rewrite whose occurrence follows a prefix free of table characters. */
  lemma StepPlain(t: seq<BadToken>, pre: string, tok: string, rest: string, j: nat)
    requires TableOk(t) && NoneBad(pre) && j < |t| && t[j].text == tok
    requires forall k :: 0 <= k < j ==> !OccursAt(tok + rest, t[k].text, 0)
    ensures MangleFrom(t, pre + tok + rest) == MangleFrom(t, pre + "_" + rest + [t[j].code] + NatToString(Utf8Len(pre)))
  {
    StepPlainAt(t, pre, tok, rest, j, Utf8Len(pre));
  }

  /** The same step with the byte offset of the entry given as `n`. */
  lemma StepPlainAt(t: seq<BadToken>, pre: string, tok: string, rest: string, j: nat, n: nat)
    requires TableOk(t) && NoneBad(pre) && j < |t| && t[j].text == tok && n == Utf8Len(pre)
    requires forall k :: 0 <= k < j ==> !OccursAt(tok + rest, t[k].text, 0)
    ensures MangleFrom(t, pre + tok + rest) == MangleFrom(t, pre + "_" + rest + [t[j].code] + NatToString(n))
  {
    var s := pre + (tok + rest);
    Slices3(pre, tok, rest);
    forall i | 0 <= i < |pre| ensures !BadChar(s[i]) {
      assert s[i] == pre[i];
    }
    forall k | 0 <= k < j ensures !OccursAt(s, t[k].text, |pre|) {
      OccursShift(pre, tok + rest, t[k].text);
    }
    OccursShift(pre, tok + rest, tok);
    MangleStep(t, s, |pre|, j, n, pre + "_" + rest + [t[j].code] + NatToString(n));
  }

  lemma FirstCharsOfBads()
    ensures BADS[0].text[0] == ':' && BADS[1].text[0] == '>' && BADS[2].text[0] == '-'
    ensures BADS[3].text[0] == '&' && BADS[4].text[0] == '=' && BADS[5].text[0] == '<'
    ensures BADS[0].text == "::<" && BADS[1].text == ">::" && BADS[5].text == "<" && BADS[6].text == ">" && BADS[9].text == "::"
  {
  }

  /** The text `InitialName` builds for a name free of white space and an empty base. */
  lemma InitialNoBase(name: string, split: string, rest: string)
    requires forall i :: 0 <= i < |name| ==> !IsSpace(name[i])
    requires "_zngur_" + name + "_" == split + rest
    ensures InitialName(name, "") == split + rest
  {
    InitialPlain(name, "");
    assert "_zngur_" + "" + name == "_zngur_" + name;
  }

  /** No table entry before index `j` occurs at the start of `s`, when the
      entries there start with another character than `s` does. */
  lemma NoEarlierEntry(s: string, j: nat, skip: set<nat>)
    requires j <= |BADS| && |s| > 0
    requires forall k | 0 <= k < j && k !in skip :: BADS[k].text[0] != s[0]
    requires forall k | k in skip :: k < j && !OccursAt(s, BADS[k].text, 0)
    ensures forall k :: 0 <= k < j ==> !OccursAt(s, BADS[k].text, 0)
  {
    BadsOk();
    forall k | 0 <= k < j && k !in skip ensures !OccursAt(s, BADS[k].text, 0) {
      FirstCharDiffers(s, BADS[k].text);
    }
  }

  lemma GreeterInitial()
    ensures InitialName("crate::Greeter", "") == "_zngur_crate" + "::" + "Greeter_"
  {
    InitialNoBase("crate::Greeter", "_zngur_crate" + "::", "Greeter_");
  }

  lemma GreeterNoEarlier()
    ensures forall k :: 0 <= k < 9 ==> !OccursAt("::" + "Greeter_", BADS[k].text, 0)
  {
    assert !OccursAt("::" + "Greeter_", BADS[0].text, 0) by {
      assert ("::" + "Greeter_")[2] != BADS[0].text[2];
    }
    NoEarlierEntry("::" + "Greeter_", 9, {0});
  }

  lemma GreeterTail()
    ensures NoneBad("_zngur_crate") && Utf8Len("_zngur_crate") == 12 && BADS[9].text == "::"
    ensures "_zngur_crate" + "_" + "Greeter_" + [BADS[9].code] + NatToString(12) == "_zngur_crate_Greeter_s12"
    ensures NoneBad("_zngur_crate_Greeter_s12")
  {
    Utf8LenAscii("_zngur_crate");
    assert NatToString(12) == "12";
  }

  /** `crate::Greeter` (no mangling base) becomes `_zngur_crate_Greeter_s12`:
      the `::` at byte 12 is replaced and recorded with `s`. */
  lemma MangleCrateGreeter()
    ensures MangleName("crate::Greeter", "") == "_zngur_crate_Greeter_s12"
  {
    BadsOk();
    GreeterInitial();
    GreeterNoEarlier();
    GreeterTail();
    StepPlain(BADS, "_zngur_crate", "::", "Greeter_", 9);
    MangleDone(BADS, "_zngur_crate_Greeter_s12");
  }

  lemma ToOwnedInitial()
    ensures InitialName("<str>::to_owned::<>", "") == "_zngur_" + "<" + "str>::to_owned::<>_"
  {
    InitialNoBase("<str>::to_owned::<>", "_zngur_" + "<", "str>::to_owned::<>_");
  }

  lemma ToOwnedFirstNoEarlier()
    ensures forall k :: 0 <= k < 5 ==> !OccursAt("<" + "str>::to_owned::<>_", BADS[k].text, 0)
  {
    NoEarlierEntry("<" + "str>::to_owned::<>_", 5, {});
  }

  lemma ToOwnedFirst()
    ensures NoneBad("_zngur_") && Utf8Len("_zngur_") == 7 && BADS[5].text == "<"
    ensures "_zngur_" + "_" + "str>::to_owned::<>_" + [BADS[5].code] + NatToString(7) == "_zngur__str" + ">::" + "to_owned::<>_x7"
  {
    Utf8LenAscii("_zngur_");
    ToOwnedFirstText();
  }

  lemma ToOwnedFirstText()
    ensures "_zngur_" + "_" + "str>::to_owned::<>_" + [BADS[5].code] + NatToString(7) == "_zngur__str" + ">::" + "to_owned::<>_x7"
  {
    ExampleNumbers();
    ExampleCodes();
    ToOwnedFirstLit();
    TailSubst("_zngur_" + "_" + "str>::to_owned::<>_", [BADS[5].code], "x", NatToString(7), "7");
  }

  lemma ToOwnedFirstLit()
    ensures "_zngur_" + "_" + "str>::to_owned::<>_" + "x" + "7" == "_zngur__str" + ">::" + "to_owned::<>_x7"
  {
  }

  /** The decimal offsets recorded in the worked examples. */
  lemma ExampleNumbers()
    ensures NatToString(7) == "7" && NatToString(11) == "11" && NatToString(20) == "20" && NatToString(21) == "21"
  {
  }

  /** The letters recorded for the entries the worked examples rewrite. */
  lemma ExampleCodes()
    ensures [BADS[5].code] == "x" && [BADS[1].code] == "n" && [BADS[0].code] == "m" && [BADS[6].code] == "y"
  {
  }

  /** Replacing the last two pieces of a concatenation by equal ones. */
  lemma TailSubst(a: string, c: string, c': string, n: string, n': string)
    requires c == c' && n == n'
    ensures a + c + n == a + c' + n'
  {
  }

  lemma ToOwnedSecond()
    ensures forall k :: 0 <= k < 1 ==> !OccursAt(">::" + "to_owned::<>_x7", BADS[k].text, 0)
    ensures NoneBad("_zngur__str") && Utf8Len("_zngur__str") == 11 && BADS[1].text == ">::"
    ensures "_zngur__str" + "_" + "to_owned::<>_x7" + [BADS[1].code] + NatToString(11) == "_zngur__str_to_owned" + "::<" + ">_x7n11"
  {
    NoEarlierEntry(">::" + "to_owned::<>_x7", 1, {});
    Utf8LenAscii("_zngur__str");
    ToOwnedSecondText();
  }

  lemma ToOwnedSecondText()
    ensures "_zngur__str" + "_" + "to_owned::<>_x7" + [BADS[1].code] + NatToString(11) == "_zngur__str_to_owned" + "::<" + ">_x7n11"
  {
    ExampleNumbers();
    ExampleCodes();
    ToOwnedSecondLit();
    TailSubst("_zngur__str" + "_" + "to_owned::<>_x7", [BADS[1].code], "n", NatToString(11), "11");
  }

  lemma ToOwnedSecondLit()
    ensures "_zngur__str" + "_" + "to_owned::<>_x7" + "n" + "11" == "_zngur__str_to_owned" + "::<" + ">_x7n11"
  {
  }

  lemma ToOwnedThird()
    ensures NoneBad("_zngur__str_to_owned") && Utf8Len("_zngur__str_to_owned") == 20 && BADS[0].text == "::<"
    ensures "_zngur__str_to_owned" + "_" + ">_x7n11" + [BADS[0].code] + NatToString(20) == "_zngur__str_to_owned_" + ">" + "_x7n11m20"
  {
    Utf8LenAscii("_zngur__str_to_owned");
    ToOwnedThirdText();
  }

  lemma ToOwnedThirdText()
    ensures "_zngur__str_to_owned" + "_" + ">_x7n11" + [BADS[0].code] + NatToString(20) == "_zngur__str_to_owned_" + ">" + "_x7n11m20"
  {
    ExampleNumbers();
    ExampleCodes();
    ToOwnedThirdLit();
    TailSubst("_zngur__str_to_owned" + "_" + ">_x7n11", [BADS[0].code], "m", NatToString(20), "20");
  }

  lemma ToOwnedThirdLit()
    ensures "_zngur__str_to_owned" + "_" + ">_x7n11" + "m" + "20" == "_zngur__str_to_owned_" + ">" + "_x7n11m20"
  {
  }

  lemma ToOwnedFourthNoEarlier()
    ensures forall k :: 0 <= k < 6 ==> !OccursAt(">" + "_x7n11m20", BADS[k].text, 0)
  {
    assert !OccursAt(">" + "_x7n11m20", BADS[1].text, 0) by {
      assert (">" + "_x7n11m20")[1] != BADS[1].text[1];
    }
    NoEarlierEntry(">" + "_x7n11m20", 6, {1});
  }

  lemma ToOwnedFourth()
    ensures NoneBad("_zngur__str_to_owned_") && Utf8Len("_zngur__str_to_owned_") == 21 && BADS[6].text == ">"
    ensures "_zngur__str_to_owned_" + "_" + "_x7n11m20" + [BADS[6].code] + NatToString(21) == "_zngur__str_to_owned___x7n11m20y21"
    ensures NoneBad("_zngur__str_to_owned___x7n11m20y21")
  {
    Utf8LenAscii("_zngur__str_to_owned_");
    ToOwnedFourthText();
    ToOwnedPlain();
  }

  lemma ToOwnedPlain()
    ensures NoneBad("_zngur__str_to_owned___x7n11m20y21")
  {
  }

  lemma ToOwnedFourthText()
    ensures "_zngur__str_to_owned_" + "_" + "_x7n11m20" + [BADS[6].code] + NatToString(21) == "_zngur__str_to_owned___x7n11m20y21"
  {
    ExampleNumbers();
    ExampleCodes();
    ToOwnedFourthLit();
    TailSubst("_zngur__str_to_owned_" + "_" + "_x7n11m20", [BADS[6].code], "y", NatToString(21), "21");
  }

  lemma ToOwnedFourthLit()
    ensures "_zngur__str_to_owned_" + "_" + "_x7n11m20" + "y" + "21" == "_zngur__str_to_owned___x7n11m20y21"
  {
  }

  /** `<str>::to_owned::<>` (no mangling base) becomes
      `_zngur__str_to_owned___x7n11m20y21`: four rewrites, each recorded with
      its letter and byte offset. */
  lemma MangleStrToOwned()
    ensures MangleName("<str>::to_owned::<>", "") == "_zngur__str_to_owned___x7n11m20y21"
  {
    BadsOk();
    ToOwnedInitial();
    ToOwnedFirstNoEarlier();
    ToOwnedFirst();
    StepPlain(BADS, "_zngur_", "<", "str>::to_owned::<>_", 5);
    ToOwnedSecond();
    StepPlain(BADS, "_zngur__str", ">::", "to_owned::<>_x7", 1);
    ToOwnedThird();
    StepPlain(BADS, "_zngur__str_to_owned", "::<", ">_x7n11", 0);
    ToOwnedFourthNoEarlier();
    ToOwnedFourth();
    StepPlain(BADS, "_zngur__str_to_owned_", ">", "_x7n11m20", 6);
    MangleDone(BADS, "_zngur__str_to_owned___x7n11m20y21");
  }
}
