/**
 * C++ names and types as the generator builds and prints them
 * (zngur-generator/src/cpp.rs): `CppPath`, `CppType`, the top-level comma
 * split used to read template arguments, the namespace wrapper of the header
 * writer, keyword escaping, and which drop-flag members a type definition gets.
 */
module CppTypes {
  import opened Wrappers
  import opened StrUtil
  import SeqUtil

  /** A C++ qualified name, one segment per `::`-separated part. */
  datatype CppPath = CppPath(segs: seq<string>)

  /** A C++ type: a path and its template arguments. */
  datatype CppType = CppType(path: CppPath, args: seq<CppType>)

  /** A function signature the generated header calls through (`CppFnSig`). */
  datatype CppFnSig = CppFnSig(linkName: string, inputs: seq<CppType>, output: CppType)

  // ---- CppPath ----

  /** `CppPath::from(&str)`: the trimmed text split at every `::`. */
  function PathFrom(s: string): (p: CppPath)
    ensures |p.segs| > 0
  {
    CppPath(Split(Trim(s), "::"))
  }

  /** The last segment (`name`); the `unwrap` in the source needs a segment. */
  function Name(p: CppPath): string
    requires |p.segs| > 0
  {
    p.segs[|p.segs| - 1]
  }

  /** Every segment but the last (`namespace`). */
  function Namespace(p: CppPath): (ns: seq<string>)
    requires |p.segs| > 0
    ensures |ns| == |p.segs| - 1
  {
    p.segs[..|p.segs| - 1]
  }

  predicate IsRust(p: CppPath) {
    |p.segs| > 0 && p.segs[0] == "rust"
  }

  /** The `Display` of a path: `::` and the segments joined by `::`. */
  function PathToString(p: CppPath): string {
    "::" + Join(p.segs, "::")
  }

  /** The C++ path of a Rust path: the Rust segments under the `rust` namespace. */
  function FromRustPath(path: seq<string>): (p: CppPath)
    ensures IsRust(p) && p.segs[1..] == path
  {
    CppPath(["rust"] + path)
  }

  /** A path splits into its namespace and its name, and printing a path read
      from a text gives that text back, trimmed, after a leading `::`. */
  lemma {:induction false} PathFromRoundTrip(s: string)
    ensures Namespace(PathFrom(s)) + [Name(PathFrom(s))] == PathFrom(s).segs
    ensures Join(PathFrom(s).segs, "::") == Trim(s)
    ensures PathToString(PathFrom(s)) == "::" + Trim(s)
  {
    JoinSplit(Trim(s), "::");
  }

  // ---- split_string ----

  /** The scanner state of `split_string`: the finished parts, the current
      part and the `<`/`>` nesting depth (a signed counter in the source). */
  datatype SplitState = SplitState(parts: seq<string>, current: string, depth: int)

  function SplitStep(st: SplitState, c: char): SplitState {
    if c == ',' && st.depth == 0 then SplitState(st.parts + [st.current], "", st.depth)
    else if c == '<' then st.(current := st.current + [c], depth := st.depth + 1)
    else if c == '>' then st.(current := st.current + [c], depth := st.depth - 1)
    else st.(current := st.current + [c])
  }

  /** The state after reading all of `s`, character by character. */
  function SplitScan(s: string): SplitState
    decreases |s|
  {
    if |s| == 0 then SplitState([], "", 0) else SplitStep(SplitScan(s[..|s| - 1]), s[|s| - 1])
  }

  /** The parts: the finished ones and the last one unless it is empty. */
  function SplitFinish(st: SplitState): seq<string> {
    if |st.current| > 0 then st.parts + [st.current] else st.parts
  }

  function SplitTopLevel(s: string): seq<string> {
    SplitFinish(SplitScan(s))
  }

  /** `split_string`: a loop over the characters with a depth counter and a
      buffer for the part being read. */
  method SplitString(input: string) returns (parts: seq<string>)
    ensures parts == SplitTopLevel(input)
  {
    parts := [];
    var current := "";
    var depth := 0;
    var i := 0;
    while i < |input|
      invariant 0 <= i <= |input|
      invariant SplitState(parts, current, depth) == SplitScan(input[..i])
    {
      var c := input[i];
      assert input[..i + 1][..i] == input[..i];
      if c == ',' && depth == 0 {
        parts := parts + [current];
        current := "";
      } else if c == '<' {
        depth := depth + 1;
        current := current + [c];
      } else if c == '>' {
        depth := depth - 1;
        current := current + [c];
      } else {
        current := current + [c];
      }
      i := i + 1;
    }
    assert input[..i] == input;
    if |current| > 0 {
      parts := parts + [current];
    }
  }

  /** The text ends in a comma read at depth 0. */
  predicate EndsWithTopLevelComma(s: string) {
    |s| > 0 && s[|s| - 1] == ',' && SplitScan(s[..|s| - 1]).depth == 0
  }

  /** What the scanner has read is always its parts and current part joined
      by commas, and no part is longer than the text read. */
  lemma {:induction false} SplitScanJoins(s: string)
    ensures Join(SplitScan(s).parts + [SplitScan(s).current], ",") == s
    ensures forall k :: 0 <= k < |SplitScan(s).parts| ==> |SplitScan(s).parts[k]| < |s|
    ensures |SplitScan(s).current| <= |s|
    ensures |s| > 0 ==> (SplitScan(s).current == "" <==> EndsWithTopLevelComma(s))
    decreases |s|
  {
    if |s| > 0 {
      var init := s[..|s| - 1];
      var c := s[|s| - 1];
      SplitScanJoins(init);
      var st := SplitScan(init);
      assert s == init + [c];
      if c == ',' && st.depth == 0 {
        assert SplitScan(s).parts + [SplitScan(s).current] == (st.parts + [st.current]) + [""];
        JoinAppend(st.parts + [st.current], "", ",");
      } else {
        assert SplitScan(s).parts + [SplitScan(s).current] == st.parts + [st.current + [c]];
        JoinExtendLast(st.parts, st.current, c, ",");
      }
    }
  }

  /** Appending a character to the last part appends it to the joined text. */
  lemma {:induction false} JoinExtendLast(parts: seq<string>, last: string, c: char, sep: string)
    ensures Join(parts + [last + [c]], sep) == Join(parts + [last], sep) + [c]
    decreases |parts|
  {
    if |parts| > 0 {
      assert (parts + [last + [c]])[1..] == parts[1..] + [last + [c]];
      assert (parts + [last])[1..] == parts[1..] + [last];
      JoinExtendLast(parts[1..], last, c, sep);
    }
  }

  /** Joining the parts with `,` gives the text back, except that a comma at
      the very end at depth 0 is lost. */
  lemma SplitJoinRoundTrip(s: string)
    ensures !EndsWithTopLevelComma(s) ==> Join(SplitTopLevel(s), ",") == s
    ensures EndsWithTopLevelComma(s) ==> Join(SplitTopLevel(s), ",") + "," == s
  {
    SplitScanJoins(s);
    var st := SplitScan(s);
    if |st.current| == 0 && |st.parts| > 0 {
      JoinAppend(st.parts, "", ",");
    } else if |st.current| == 0 {
      assert st.parts + [st.current] == [""];
    }
  }

  /** Every part is shorter than the text it was read from. */
  lemma SplitPartsShorter(s: string)
    ensures forall k :: 0 <= k < |SplitTopLevel(s)| ==> |SplitTopLevel(s)[k]| <= |s|
  {
    SplitScanJoins(s);
  }

  // ---- CppType ----

  /** `CppType::from(&str)`. With no `<` the whole trimmed text is the path;
      otherwise the path is the text before the first `<`, the rest must end
      in `>` (the source unwraps this, so `None` is that panic), and the text
      between is split at top-level commas and read recursively. */
  function TypeFrom(s: string): (r: Option<CppType>)
    ensures r.Some? && Contains(Trim(s), "<") ==>
              var i := Find(Trim(s), "<").value;
              i + 2 <= |Trim(s)| && Trim(s)[|Trim(s)| - 1] == '>' &&
              r.value.path == PathFrom(Trim(s)[..i]) &&
              |r.value.args| == |SplitTopLevel(Trim(s)[i + 1..|Trim(s)| - 1])|
    decreases |s|
  {
    var v := Trim(s);
    match Find(v, "<")
    case None => Some(CppType(PathFrom(v), []))
    case Some(i) =>
      var generics := v[i + 1..];
      if !EndsWith(generics, ">") then None
      else
        var inner := generics[..|generics| - 1];
        assert inner == v[i + 1..|v| - 1];
        var parts := SplitTopLevel(inner);
        SplitPartsShorter(inner);
        TrimShorter(s);
        var args := seq(|parts|, k requires 0 <= k < |parts| => TypeFrom(parts[k]));
        if forall k :: 0 <= k < |args| ==> args[k].Some? then
          Some(CppType(PathFrom(v[..i]), seq(|args|, k requires 0 <= k < |args| && args[k].Some? => args[k].value)))
        else None
  }

  lemma TrimShorter(s: string)
    ensures |Trim(s)| <= |s|
  {
  }

  /** The three outcomes of `CppType::from`: no `<` gives a bare path; a `<`
      without a final `>` is the panic; otherwise the path is the text before
      the first `<` and there is one argument per top-level part. */
  lemma TypeFromCases(s: string)
    ensures !Contains(Trim(s), "<") ==> TypeFrom(s) == Some(CppType(PathFrom(s), []))
    ensures Contains(Trim(s), "<") && !EndsWith(Trim(s), ">") ==> TypeFrom(s).None?
  {
    var v := Trim(s);
    assert Trim(v) == v by { TrimIdempotent(s); }
    if Contains(v, "<") {
      var i := Find(v, "<").value;
      if !EndsWith(v, ">") {
        assert !EndsWith(v[i + 1..], ">");
      }
    }
  }

  lemma TrimIdempotent(s: string)
    ensures Trim(Trim(s)) == Trim(s)
  {
    var u := TrimStart(s);
    var t := TrimEnd(u);
    TrimEndPrefix(u);
    if |t| > 0 {
      assert t[0] == u[0];
    }
    assert TrimStart(t) == t;
  }

  lemma {:induction false} TrimEndPrefix(x: string)
    ensures TrimEnd(x) == x[..|TrimEnd(x)|]
    decreases |x|
  {
    if |x| > 0 && IsSpace(x[|x| - 1]) {
      TrimEndPrefix(x[..|x| - 1]);
    }
  }

  /** The `Display` of a type: its path, then `<a, b>` only when it has
      template arguments. */
  function TypeToString(t: CppType): (r: string)
    ensures |t.args| == 0 ==> r == PathToString(t.path)
    ensures |t.args| > 0 ==> StartsWith(r, PathToString(t.path) + "<") && EndsWith(r, ">")
    decreases t
  {
    var p := PathToString(t.path);
    if |t.args| == 0 then p
    else
      var body := Join(seq(|t.args|, k requires 0 <= k < |t.args| => TypeToString(t.args[k])), ", ");
      assert (p + "<" + body + ">")[..|p + "<"|] == p + "<";
      p + "<" + body + ">"
  }

  /** Reading a bare path text and printing it gives the text back after `::`. */
  lemma TypeFromPlainRoundTrip(s: string)
    requires !Contains(Trim(s), "<")
    ensures TypeFrom(s).Some? && TypeToString(TypeFrom(s).value) == "::" + Trim(s)
  {
    TypeFromCases(s);
    PathFromRoundTrip(s);
  }

  // ---- the header writer ----

  /** The text buffer the header is written into (`State`). */
  class HeaderState {
    var text: string

    constructor ()
      ensures text == ""
    {
      text := "";
    }

    /** `emit_in_namespace`: one `namespace p {` line per namespace segment,
        the body, then as many closing braces. */
    method EmitInNamespace(p: CppPath, body: string)
      requires |p.segs| > 0
      modifies this
      ensures text == old(text) + NamespaceOpens(Namespace(p)) + body + NamespaceCloses(|Namespace(p)|)
    {
      var ns := Namespace(p);
      var i := 0;
      while i < |ns|
        invariant 0 <= i <= |ns|
        invariant text == old(text) + NamespaceOpens(ns[..i])
      {
        SeqUtil.PrefixSnoc(ns, i);
        NamespaceOpensAppend(ns[..i], ns[i]);
        SeqUtil.AppendAssoc(old(text), NamespaceOpens(ns[..i]), NamespaceOpen(ns[i]));
        text := text + NamespaceOpen(ns[i]);
        i := i + 1;
      }
      assert ns[..i] == ns;
      text := text + body;
      var j := 0;
      while j < |ns|
        invariant 0 <= j <= |ns|
        invariant text == old(text) + NamespaceOpens(ns) + body + NamespaceCloses(j)
      {
        SeqUtil.AppendAssoc(old(text) + NamespaceOpens(ns) + body, NamespaceCloses(j), "}\n");
        text := text + "}\n";
        j := j + 1;
      }
    }
  }

  /** The line that opens one namespace. */
  function NamespaceOpen(n: string): string {
    "namespace " + n + " {\n"
  }

  function NamespaceOpens(ns: seq<string>): string
    decreases |ns|
  {
    if |ns| == 0 then "" else NamespaceOpens(ns[..|ns| - 1]) + NamespaceOpen(ns[|ns| - 1])
  }

  lemma NamespaceOpensAppend(ns: seq<string>, x: string)
    ensures NamespaceOpens(ns + [x]) == NamespaceOpens(ns) + NamespaceOpen(x)
  {
    assert (ns + [x])[..|ns|] == ns;
  }

  function NamespaceCloses(n: nat): string
    decreases n
  {
    if n == 0 then "" else NamespaceCloses(n - 1) + "}\n"
  }

  function CountChar(s: string, c: char): nat
    decreases |s|
  {
    if |s| == 0 then 0 else CountChar(s[..|s| - 1], c) + (if s[|s| - 1] == c then 1 else 0)
  }

  lemma {:induction false} CountCharAppend(a: string, b: string, c: char)
    ensures CountChar(a + b, c) == CountChar(a, c) + CountChar(b, c)
    decreases |b|
  {
    if |b| > 0 {
      assert (a + b)[..|a + b| - 1] == a + b[..|b| - 1];
      CountCharAppend(a, b[..|b| - 1], c);
    } else {
      assert a + b == a;
    }
  }

  predicate NoBraces(s: string) {
    forall i :: 0 <= i < |s| ==> s[i] != '{' && s[i] != '}'
  }

  lemma NoBracesCount(s: string)
    requires NoBraces(s)
    ensures CountChar(s, '{') == 0 && CountChar(s, '}') == 0
    decreases |s|
  {
    if |s| > 0 {
      NoBracesCount(s[..|s| - 1]);
    }
  }

  /** One `namespace x {` line opens one brace and closes none. */
  lemma OpenLineBraces(x: string)
    requires NoBraces(x)
    ensures CountChar(NamespaceOpen(x), '{') == 1
    ensures CountChar(NamespaceOpen(x), '}') == 0
  {
    NoBracesCount(x);
    NoBracesCount("namespace ");
    CountCharAppend("namespace ", x, '{');
    CountCharAppend("namespace ", x, '}');
    CountCharAppend("namespace " + x, " {\n", '{');
    CountCharAppend("namespace " + x, " {\n", '}');
    assert " {\n"[..2] == " {" && " {"[..1] == " " && " "[..0] == "";
    assert CountChar(" {\n", '{') == 1 && CountChar(" {\n", '}') == 0;
  }

  /** The namespace wrapper is balanced: it opens exactly one brace per
      namespace segment, and closes the same number. */
  lemma {:induction false} NamespaceBalanced(ns: seq<string>)
    requires forall k :: 0 <= k < |ns| ==> NoBraces(ns[k])
    ensures CountChar(NamespaceOpens(ns), '{') == |ns| && CountChar(NamespaceOpens(ns), '}') == 0
    ensures CountChar(NamespaceCloses(|ns|), '}') == |ns| && CountChar(NamespaceCloses(|ns|), '{') == 0
    decreases |ns|
  {
    if |ns| > 0 {
      var init := ns[..|ns| - 1];
      var x := ns[|ns| - 1];
      NamespaceBalanced(init);
      OpenLineBraces(x);
      CountCharAppend(NamespaceOpens(init), NamespaceOpen(x), '{');
      CountCharAppend(NamespaceOpens(init), NamespaceOpen(x), '}');
      CloseLineBraces(|ns|);
    }
  }

  lemma CloseLineBraces(n: nat)
    requires n > 0
    requires CountChar(NamespaceCloses(n - 1), '}') == n - 1 && CountChar(NamespaceCloses(n - 1), '{') == 0
    ensures CountChar(NamespaceCloses(n), '}') == n && CountChar(NamespaceCloses(n), '{') == 0
  {
    CountCharAppend(NamespaceCloses(n - 1), "}\n", '}');
    CountCharAppend(NamespaceCloses(n - 1), "}\n", '{');
    assert "}\n"[..1] == "}" && "}"[..0] == "";
    assert CountChar("}\n", '}') == 1 && CountChar("}\n", '{') == 0;
  }

  // ---- keywords and lifecycle members ----

  /** `cpp_handle_keyword`: `new` is a C++ keyword and becomes `new_`. */
  function HandleKeyword(name: string): (r: string)
    ensures name == "new" ==> r == "new_"
    ensures name != "new" ==> r == name
  {
    if name == "new" then "new_" else name
  }

  /** Two distinct method names keep distinct C++ names unless one of them is
      `new` and the other `new_`. */
  lemma HandleKeywordInjective(a: string, b: string)
    requires a != b
    ensures HandleKeyword(a) == HandleKeyword(b) <==> (a == "new" && b == "new_") || (a == "new_" && b == "new")
  {
  }

  /** Which ownership members a type definition gets in the header: the
      drop flag, the destructor and move operations, and the bodies of the
      data-pointer check and of `assume_init` / `assume_deinit`. */
  datatype Lifecycle = Lifecycle(
    dropFlagMember: bool,
    destructorAndMoves: bool,
    dataPtrCheck: string,
    assumeInitBody: string,
    assumeDeinitBody: string)

  function LifecycleOf(isCopy: bool): (l: Lifecycle)
    ensures l.dropFlagMember == l.destructorAndMoves == !isCopy
  {
    if isCopy then Lifecycle(false, false, "", "", "")
    else Lifecycle(true, true, "if (!t.drop_flag) { ::std::terminate(); }", "t.drop_flag = true;", "t.drop_flag = false;")
  }

  /** The flag is declared, checked, set and cleared exactly for non-`Copy`
      types; a `Copy` type's helpers have empty bodies. */
  lemma LifecycleFlagOnlyWhenOwned(isCopy: bool)
    ensures isCopy <==> LifecycleOf(isCopy).assumeInitBody == ""
    ensures isCopy <==> LifecycleOf(isCopy).assumeDeinitBody == ""
    ensures isCopy <==> LifecycleOf(isCopy).dataPtrCheck == ""
    ensures !isCopy ==> Contains(LifecycleOf(isCopy).assumeInitBody, "drop_flag")
    ensures !isCopy ==> Contains(LifecycleOf(isCopy).assumeDeinitBody, "drop_flag")
  {
    if !isCopy {
      assert OccursAt("t.drop_flag = true;", "drop_flag", 2);
      assert OccursAt("t.drop_flag = false;", "drop_flag", 2);
    }
  }
}
