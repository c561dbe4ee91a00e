/**
 * The command-line tool's own logic (zngur-cli/src/main.rs): the default
 * output paths next to the `.zng` file, and `str_to_typesizes`, which reads
 * the `print-type-size type:` lines of rustc's `-Z print-type-sizes`
 * output into a map from type name to a stack-allocated layout.
 */
module CliMain {
  import opened Wrappers
  import opened StrUtil
  import ZngurDef
  import ZngurApi

  // ---- default output paths ----

  /** `Path::parent`: every path but the empty one has a parent (a bare
      file name has the empty path as parent). */
  function Parent(p: ZngurApi.Path): (r: Option<ZngurApi.Path>)
    ensures r.Some? <==> |p| > 0
    ensures r.Some? ==> r.value + [p[|p| - 1]] == p
  {
    if |p| == 0 then None else Some(p[..|p| - 1])
  }

  /** The builder `main` hands to `generate` for `zngur generate <path>`:
      each output path defaults to a file beside the `.zng` file; `None`
      when the path has no parent. */
  function CliBuilder(path: ZngurApi.Path, cpp: Option<ZngurApi.Path>, h: Option<ZngurApi.Path>, rs: Option<ZngurApi.Path>,
                      base: Option<string>, ns: Option<string>): Option<ZngurApi.Zngur>
  {
    match Parent(path)
    case None => None
    case Some(pp) =>
      var z := ZngurApi.FromZngFile(path);
      var z := ZngurApi.WithCppFile(z, if cpp.Some? then cpp.value else pp + ["generated.cpp"]);
      var z := ZngurApi.WithHFile(z, if h.Some? then h.value else pp + ["generated.h"]);
      var z := ZngurApi.WithRsFile(z, if rs.Some? then rs.value else pp + ["src", "generated.rs"]);
      var z := if base.Some? then ZngurApi.WithManglingBase(z, base.value) else z;
      Some(if ns.Some? then ZngurApi.WithCppNamespace(z, ns.value) else z)
  }

  /** The tool always gives `generate` all three paths: without options
      the outputs are `generated.cpp`, `generated.h` and
      `src/generated.rs` beside the `.zng` file, the header is included as
      `generated.h`, and the namespace and mangling base follow the
      options. */
  lemma CliDefaults(path: ZngurApi.Path, base: Option<string>, ns: Option<string>, fileBase: string)
    requires |path| > 0
    ensures var z := CliBuilder(path, None, None, None, base, ns);
      z.Some? &&
      var pp := path[..|path| - 1];
      z.value.cppFile == Some(pp + ["generated.cpp"]) &&
      z.value.hFile == Some(pp + ["generated.h"]) &&
      z.value.rsFile == Some(pp + ["src", "generated.rs"]) &&
      ZngurApi.SettingsOf(z.value, fileBase).Ok? &&
      ZngurApi.SettingsOf(z.value, fileBase).value.headerName == "generated.h" &&
      ZngurApi.SettingsOf(z.value, fileBase).value.namespace == (if ns.Some? then ns.value else "rust") &&
      ZngurApi.SettingsOf(z.value, fileBase).value.manglingBase ==
        (if base.Some? then base.value else if ns.Some? then ns.value else fileBase)
  {
    var pp := path[..|path| - 1];
    assert "generated.h" != "..";
  }

  /** A given header path is used as given; `generate` can fail only when
      it names no file. */
  lemma CliHeaderGiven(path: ZngurApi.Path, h: ZngurApi.Path, fileBase: string)
    requires |path| > 0
    ensures var z := CliBuilder(path, None, Some(h), None, None, None);
      z.Some? && z.value.hFile == Some(h) &&
      (ZngurApi.SettingsOf(z.value, fileBase).Ok? <==> ZngurApi.FileName(h).Some?)
  {
  }

  // ---- print-type-sizes ----

  /** Where the name ends: at the first piece after the first that reads
      as a `u32`, or at the end. */
  function NameEnd(parts: seq<string>, j: nat): (k: nat)
    requires 1 <= j <= |parts|
    ensures j <= k <= |parts|
    ensures forall i | j <= i < k :: ParseUnsigned(parts[i], U32).None?
    ensures k < |parts| ==> ParseUnsigned(parts[k], U32).Some?
    decreases |parts| - j
  {
    if j == |parts| || ParseUnsigned(parts[j], U32).Some? then j else NameEnd(parts, j + 1)
  }

  const U32: nat := 0x1_0000_0000
  const USIZE: nat := 0x1_0000_0000_0000_0000

  /** The `while let` loop that builds a type's name from the pieces after
      `type:`, joining with single spaces until a number. */
  method ReadName(parts: seq<string>) returns (name: string, k: nat)
    requires |parts| > 0
    ensures k == NameEnd(parts, 1)
    ensures name == Join(parts[..k], " ")
  {
    name := parts[0];
    k := 1;
    assert parts[..1] == [parts[0]];
    while k < |parts| && ParseUnsigned(parts[k], U32).None?
      invariant 1 <= k <= |parts|
      invariant NameEnd(parts, k) == NameEnd(parts, 1)
      invariant name == Join(parts[..k], " ")
      decreases |parts| - k
    {
      JoinAppend(parts[..k], parts[k], " ");
      SeqUtilPrefix(parts, k);
      name := name + " " + parts[k];
      k := k + 1;
    }
  }

  lemma SeqUtilPrefix(parts: seq<string>, k: nat)
    requires k < |parts|
    ensures parts[..k + 1] == parts[..k] + [parts[k]]
  {
  }

  /** `name[1..(name.len() - 2)]`: the name token without its first byte
      and its last two, with the offsets counted in UTF-8 bytes; `None`
      where the slice panics, that is for a token of fewer than three
      bytes or when either offset falls inside a character. */
  function NameOf(tok: string): (r: Option<string>)
    ensures r.Some? <==> Utf8Len(tok) >= 3 && Utf8Width(tok[0]) == 1 && ByteBoundary(tok, Utf8Len(tok) - 2).Some?
    ensures r.Some? ==> 1 + |r.value| <= |tok| && tok[1..1 + |r.value|] == r.value
                        && Utf8Len(tok) == 1 + Utf8Len(r.value) + 2 && Utf8Len(tok[1 + |r.value|..]) == 2
  {
    if Utf8Len(tok) < 3 || Utf8Width(tok[0]) != 1 then None
    else match ByteBoundary(tok, Utf8Len(tok) - 2)
      case None => None
      case Some(j) =>
        ByteBoundaryIff(tok, Utf8Len(tok) - 2, j);
        assert tok[..j] == [tok[0]] + tok[1..j];
        assert tok == tok[..j] + tok[j..];
        Utf8LenAppend([tok[0]], tok[1..j]);
        Utf8LenAppend(tok[..j], tok[j..]);
        assert [tok[0]][..0] == [];
        Some(tok[1..j])
  }

  /** One `print-type-size type:` line: the name between the backquote
      and the closing backquote and colon, the size, and the alignment
      three pieces later; `None` where the source's `unwrap`s or the
      name slice panic. */
  function LineEntry(line: string): Option<(string, ZngurDef.LayoutPolicy)> {
    var ws := Words(line);
    if |ws| < 3 then None
    else
      var parts := ws[2..];
      var k := NameEnd(parts, 1);
      var name := Join(parts[..k], " ");
      if k + 3 >= |parts| then None
      else match (ParseUnsigned(parts[k], USIZE), ParseUnsigned(parts[k + 3], USIZE))
        case (Some(size), Some(align)) =>
          (match NameOf(name)
           case None => None
           case Some(n) => Some((n, ZngurDef.StackAllocated(size, align))))
        case _ => None
  }

  /** The line rustc prints for a type, with `tok` as the name token. */
  function TokenLine(tok: string, size: nat, align: nat): string {
    Join(["print-type-size", "type:", tok, NatToString(size), "bytes,", "alignment:", NatToString(align), "bytes"], " ")
  }

  /** The line rustc prints for a type without spaces in its name. */
  function TypeSizeLine(n: string, size: nat, align: nat): string {
    TokenLine("`" + n + "`:", size, align)
  }

  /** A type-size line whose name token has no spaces reads as that
      token's name slice, with the size and alignment, for a size below
      4 GiB; it panics exactly when the slice does. */
  lemma TokenLineEntry(tok: string, size: nat, align: nat)
    requires |tok| > 0 && forall i | 0 <= i < |tok| :: !IsSpace(tok[i])
    requires size < U32 && align < USIZE
    ensures LineEntry(TokenLine(tok, size, align)) ==
              match NameOf(tok)
              case None => None
              case Some(n) => Some((n, ZngurDef.StackAllocated(size, align)))
  {
    var ws := ["print-type-size", "type:", tok, NatToString(size), "bytes,", "alignment:", NatToString(align), "bytes"];
    NatToStringDigits(size);
    NatToStringDigits(align);
    assert forall i | 0 <= i < |ws| :: IsWord(ws[i]) by {
      assert IsWord(NatToString(size)) by { DigitsAreWord(NatToString(size)); }
      assert IsWord(NatToString(align)) by { DigitsAreWord(NatToString(align)); }
    }
    WordsOfJoin(ws);
    var parts := ws[2..];
    assert parts[0] == tok && parts[1] == NatToString(size) && parts[4] == NatToString(align);
    ParseOfNatToString(size, U32);
    ParseOfNatToString(size, USIZE);
    ParseOfNatToString(align, USIZE);
    assert NameEnd(parts, 1) == 1;
    assert parts[..1] == [tok];
  }

  /** Reading the line rustc prints for a type gives its name, size and
      alignment back, for a size below 4 GiB. */
  lemma LineRoundTrip(n: string, size: nat, align: nat)
    requires forall i | 0 <= i < |n| :: !IsSpace(n[i])
    requires size < U32 && align < USIZE
    ensures LineEntry(TypeSizeLine(n, size, align)) == Some((n, ZngurDef.StackAllocated(size, align)))
  {
    var tok := "`" + n + "`:";
    assert forall i | 0 <= i < |tok| :: !IsSpace(tok[i]) by {
      forall i | 0 <= i < |tok| ensures !IsSpace(tok[i]) {
        if 1 <= i < 1 + |n| { assert tok[i] == n[i - 1]; }
      }
    }
    TokenLineEntry(tok, size, align);
    assert tok[..1 + |n|] == "`" + n && tok == "`" + n + "`:";
    Utf8LenAppend("`", n);
    Utf8LenAppend("`" + n, "`:");
    Utf8LenAscii("`");
    Utf8LenAscii("`:");
    ByteBoundaryIff(tok, Utf8Len(tok) - 2, 1 + |n|);
    assert tok[1..1 + |n|] == n;
  }

  /** A name token starting with a character wider than one byte panics
      even when the rest of the line is well formed: `éab:` is cut at
      byte 1, inside the `é`. */
  lemma WideFirstCharPanics()
    ensures LineEntry(TokenLine("\U{E9}ab:", 1, 2)) == None
  {
    TokenLineEntry("\U{E9}ab:", 1, 2);
  }

  /** The name slice is counted in bytes: the three-byte token `aé` has
      its empty middle read as the name. */
  lemma NameSliceIsByByte()
    ensures LineEntry(TokenLine("a\U{E9}", 1, 2)) == Some(("", ZngurDef.StackAllocated(1, 2)))
  {
    var tok := "a\U{E9}";
    TokenLineEntry(tok, 1, 2);
    assert tok[..1] == "a";
    ByteBoundaryIff(tok, Utf8Len(tok) - 2, 1);
  }

  lemma DigitsAreWord(s: string)
    requires |s| > 0 && AllDigits(s)
    ensures IsWord(s)
  {
  }

  /** `.filter(keep).map(entry).collect::<HashMap<_, _>>()` where `entry`
      may panic (`None`): a later entry for the same key replaces an
      earlier one. */
  function CollectMap<K, V>(lines: seq<string>, keep: string -> bool, entry: string -> Option<(K, V)>): Option<map<K, V>>
    decreases |lines|
  {
    if |lines| == 0 then Some(map[])
    else match CollectMap(lines[..|lines| - 1], keep, entry)
      case None => None
      case Some(m) =>
        var line := lines[|lines| - 1];
        if !keep(line) then Some(m)
        else match entry(line)
          case None => None
          case Some(e) => Some(m[e.0 := e.1])
  }

  predicate IsTypeLine(line: string) {
    Contains(line, "type:")
  }

  /** `str_to_typesizes`: it panics exactly when some line mentioning
      `type:` does not read as a type-size line, and every type it maps
      was read from such a line. */
  function StrToTypesizes(input: string): (r: Option<map<string, ZngurDef.LayoutPolicy>>)
    ensures var lines := Lines(input);
            r.Some? <==> forall i | 0 <= i < |lines| && IsTypeLine(lines[i]) :: LineEntry(lines[i]).Some?
    ensures var lines := Lines(input);
            r.Some? ==> forall k | k in r.value ::
              exists i | 0 <= i < |lines| :: IsTypeLine(lines[i]) && LineEntry(lines[i]).Some? && LineEntry(lines[i]).value.0 == k
  {
    var lines := Lines(input);
    CollectMapNoPanic(lines, IsTypeLine, LineEntry);
    var r := CollectMap(lines, IsTypeLine, LineEntry);
    if r.Some? then
      CollectMapKeys(lines, IsTypeLine, LineEntry);
      r
    else
      r
  }

  /** The whole collection succeeds exactly when no kept line panics. */
  lemma {:induction false} CollectMapNoPanic<K, V>(lines: seq<string>, keep: string -> bool, entry: string -> Option<(K, V)>)
    ensures CollectMap(lines, keep, entry).Some? <==> forall i | 0 <= i < |lines| && keep(lines[i]) :: entry(lines[i]).Some?
    decreases |lines|
  {
    if |lines| > 0 {
      var init := lines[..|lines| - 1];
      CollectMapNoPanic(init, keep, entry);
      forall i | 0 <= i < |lines| - 1 ensures lines[i] == init[i] { }
    }
  }

  /** Each key maps to the value of the last kept line with that key. */
  lemma {:induction false} CollectMapLastWins<K, V>(lines: seq<string>, keep: string -> bool, entry: string -> Option<(K, V)>, i: nat)
    requires CollectMap(lines, keep, entry).Some?
    requires i < |lines| && keep(lines[i]) && entry(lines[i]).Some?
    requires forall j | i < j < |lines| && keep(lines[j]) && entry(lines[j]).Some? :: entry(lines[j]).value.0 != entry(lines[i]).value.0
    ensures entry(lines[i]).value.0 in CollectMap(lines, keep, entry).value
    ensures CollectMap(lines, keep, entry).value[entry(lines[i]).value.0] == entry(lines[i]).value.1
    decreases |lines|
  {
    if i < |lines| - 1 {
      var init := lines[..|lines| - 1];
      assert init[i] == lines[i];
      forall j | i < j < |init| ensures init[j] == lines[j] { }
      CollectMapLastWins(init, keep, entry, i);
    }
  }

  /** Every key of the map comes from a kept line. */
  lemma {:induction false} CollectMapKeys<K, V>(lines: seq<string>, keep: string -> bool, entry: string -> Option<(K, V)>)
    requires CollectMap(lines, keep, entry).Some?
    ensures forall k | k in CollectMap(lines, keep, entry).value ::
              exists i | 0 <= i < |lines| :: keep(lines[i]) && entry(lines[i]).Some? && entry(lines[i]).value.0 == k
    decreases |lines|
  {
    if |lines| > 0 {
      var init := lines[..|lines| - 1];
      CollectMapKeys(init, keep, entry);
      var m := CollectMap(lines, keep, entry).value;
      forall k | k in m
        ensures exists i | 0 <= i < |lines| :: keep(lines[i]) && entry(lines[i]).Some? && entry(lines[i]).value.0 == k
      {
        var last := lines[|lines| - 1];
        if keep(last) && entry(last).value.0 == k {
        } else {
          var i :| 0 <= i < |init| && keep(init[i]) && entry(init[i]).Some? && entry(init[i]).value.0 == k;
          assert lines[i] == init[i];
        }
      }
    }
  }
}
