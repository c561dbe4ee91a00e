/**
 * The build-script API (zngur/src/lib.rs): a `Zngur` builder that records
 * the `.zng` file, the three output paths, a mangling base and a C++
 * namespace, and `generate`, which settles the header name, namespace and
 * mangling base, renames the `rust` namespace in the rendered text and
 * writes the outputs. Paths are sequences of components; reading the
 * `.zng` file and rendering are parameters.
 */
module ZngurApi {
  import opened Wrappers
  import StrUtil
  import ZngurDef
  import Rdoc

  type Path = seq<string>

  datatype Zngur = Zngur(
    zngFile: Path,
    hFile: Option<Path>,
    cppFile: Option<Path>,
    rsFile: Option<Path>,
    manglingBase: Option<string>,
    cppNamespace: Option<string>)

  /** `Zngur::from_zng_file`: nothing but the `.zng` file is set. */
  function FromZngFile(p: Path): (z: Zngur)
    ensures z.zngFile == p && z.hFile.None? && z.cppFile.None? && z.rsFile.None?
    ensures z.manglingBase.None? && z.cppNamespace.None?
  {
    Zngur(p, None, None, None, None, None)
  }

  function WithHFile(z: Zngur, p: Path): Zngur { z.(hFile := Some(p)) }

  function WithCppFile(z: Zngur, p: Path): Zngur { z.(cppFile := Some(p)) }

  function WithRsFile(z: Zngur, p: Path): Zngur { z.(rsFile := Some(p)) }

  function WithManglingBase(z: Zngur, b: string): Zngur { z.(manglingBase := Some(b)) }

  function WithCppNamespace(z: Zngur, ns: string): Zngur { z.(cppNamespace := Some(ns)) }

  /** Setting a field again replaces the earlier value, and setters of
      different fields can be applied in either order. */
  lemma SettersOverwriteAndCommute(z: Zngur, p: Path, q: Path, b: string, ns: string)
    ensures WithHFile(WithHFile(z, p), q) == WithHFile(z, q)
    ensures WithManglingBase(WithManglingBase(z, b), ns) == WithManglingBase(z, ns)
    ensures WithHFile(WithRsFile(z, p), q) == WithRsFile(WithHFile(z, q), p)
    ensures WithManglingBase(WithCppNamespace(z, ns), b) == WithCppNamespace(WithManglingBase(z, b), ns)
    ensures WithHFile(z, p).rsFile == z.rsFile && WithHFile(z, p).cppFile == z.cppFile
  {
  }

  /** `Path::file_name`: the last component, unless the path is empty or
      ends in `..`. */
  function FileName(p: Path): (r: Option<string>)
    ensures r.Some? <==> |p| > 0 && p[|p| - 1] != ".."
    ensures r.Some? ==> r.value == p[|p| - 1]
  {
    if |p| > 0 && p[|p| - 1] != ".." then Some(p[|p| - 1]) else None
  }

  /** What `generate` writes into the generator's spec before rendering. */
  datatype Settings = Settings(headerName: string, namespace: string, manglingBase: string)

  /** The rendered outputs: Rust, the header, and C++ only when needed. */
  datatype Rendered = Rendered(rust: string, h: string, cpp: Option<string>)

  datatype Write = Write(path: Path, content: string)

  /** The files written, in order, and the panic that stopped `generate`,
      if any. */
  datatype Outcome = Outcome(writes: seq<Write>, error: Option<string>)

  const NO_RS := "No rs file path provided"
  const NO_H := "No h file path provided"
  const NO_CPP := "No cpp file path provided"
  const NO_FILE_NAME := "header path has no file name"

  /** The settings `generate` decides on: the header's own file name, the
      namespace (`rust` unless given), and the mangling base (the explicit
      one, else the namespace, else the file's own). */
  function SettingsOf(z: Zngur, fileBase: string): (r: Result<Settings, string>)
    ensures z.rsFile.None? ==> r == Err(NO_RS)
    ensures z.rsFile.Some? && z.hFile.None? ==> r == Err(NO_H)
    ensures r.Ok? ==> z.rsFile.Some? && z.hFile.Some? && FileName(z.hFile.value) == Some(r.value.headerName)
    ensures r.Ok? ==> r.value.namespace == (if z.cppNamespace.Some? then z.cppNamespace.value else "rust")
    ensures r.Ok? ==>
              r.value.manglingBase == (if z.manglingBase.Some? then z.manglingBase.value
                                       else if z.cppNamespace.Some? then z.cppNamespace.value
                                       else fileBase)
  {
    if z.rsFile.None? then Err(NO_RS)
    else if z.hFile.None? then Err(NO_H)
    else match FileName(z.hFile.value)
      case None => Err(NO_FILE_NAME)
      case Some(name) =>
        var ns := if z.cppNamespace.Some? then z.cppNamespace.value else "rust";
        var base := if z.cppNamespace.Some? then z.cppNamespace.value else fileBase;
        var base' := if z.manglingBase.Some? then z.manglingBase.value else base;
        Ok(Settings(name, ns, base'))
  }

  /** The header's namespace renaming: `rust::` and then `namespace rust`. */
  function RenameHeader(h: string, ns: string): string {
    StrUtil.ReplaceAll(StrUtil.ReplaceAll(h, "rust::", ns + "::"), "namespace rust", "namespace " + ns)
  }

  /** The C++ source's renaming: `rust::` only. */
  function RenameSource(cpp: string, ns: string): string {
    StrUtil.ReplaceAll(cpp, "rust::", ns + "::")
  }

  /** With the default namespace the renaming leaves the text alone. */
  lemma DefaultNamespaceKeepsText(h: string, cpp: string)
    ensures RenameHeader(h, "rust") == h
    ensures RenameSource(cpp, "rust") == cpp
  {
    DefaultSpellings();
    StrUtil.ReplaceAllSame(h, "rust::");
    StrUtil.ReplaceAllSame(cpp, "rust::");
    StrUtil.ReplaceAllSame(h, "namespace rust");
  }

  lemma DefaultSpellings()
    ensures "rust" + "::" == "rust::" && "namespace " + "rust" == "namespace rust"
  {
  }

  /** `Zngur::generate`: the Rust file, then the header, then the C++ file
      when there is C++ to write; a missing C++ path is found only after
      the first two files are written. */
  function Generate(z: Zngur, fileBase: string, render: Settings -> Rendered): (o: Outcome)
    ensures (z.rsFile.None? || z.hFile.None?) ==> o.writes == [] && o.error.Some?
    ensures o.error.None? ==> SettingsOf(z, fileBase).Ok? && (render(SettingsOf(z, fileBase).value).cpp.Some? ==> z.cppFile.Some?)
    ensures SettingsOf(z, fileBase).Ok? ==>
              var s := SettingsOf(z, fileBase).value;
              var out := render(s);
              |o.writes| >= 2 &&
              o.writes[0] == Write(z.rsFile.value, out.rust) &&
              o.writes[1] == Write(z.hFile.value, RenameHeader(out.h, s.namespace)) &&
              (|o.writes| == 3 <==> out.cpp.Some? && z.cppFile.Some?) &&
              (|o.writes| == 3 ==> o.writes[2] == Write(z.cppFile.value, RenameSource(out.cpp.value, s.namespace))) &&
              (o.error.Some? <==> out.cpp.Some? && z.cppFile.None?)
  {
    match SettingsOf(z, fileBase)
    case Err(e) => Outcome([], Some(e))
    case Ok(s) =>
      var out := render(s);
      var first := [Write(z.rsFile.value, out.rust), Write(z.hFile.value, RenameHeader(out.h, s.namespace))];
      match out.cpp
      case None => Outcome(first, None)
      case Some(cpp) =>
        if z.cppFile.None? then Outcome(first, Some(NO_CPP))
        else Outcome(first + [Write(z.cppFile.value, RenameSource(cpp, s.namespace))], None)
  }

  /** `AutoZngur`: the same three output paths, no namespace or mangling
      base of its own. */
  datatype AutoZngur = AutoZngur(hFile: Option<Path>, cppFile: Option<Path>, rsFile: Option<Path>)

  /** The settings a spec carries into rendering. */
  function SpecSettings(spec: ZngurDef.ZngurSpec): (s: Settings)
    ensures s.headerName == spec.cppIncludeHeaderName && s.namespace == spec.cppNamespace
    ensures s.manglingBase == spec.manglingBase
  {
    Settings(spec.cppIncludeHeaderName, spec.cppNamespace, spec.manglingBase)
  }

  /** What a spec built from a crate renders with: it starts from the
      default spec, so no header name, no namespace and no mangling base. */
  const CRATE_SETTINGS: Settings := SpecSettings(ZngurDef.EMPTY_SPEC)

  /** `from_crate` leaves the default spec's header name, namespace and
      mangling base alone, so the crate's spec renders with `CRATE_SETTINGS`. */
  lemma FromCrateSettings(krate: Rdoc.Crate, layoutInfo: map<string, ZngurDef.LayoutPolicy>,
                          primFrom: string -> ZngurDef.PrimitiveRustType)
    requires krate.root in krate.index && krate.index[krate.root].name.Some?
    ensures CRATE_SETTINGS == Settings("", "", "")
    ensures var r := Rdoc.FromCrateFrom(ZngurDef.EMPTY_SPEC, krate.order, krate, layoutInfo, primFrom);
            r.Ok? ==> SpecSettings(r.value) == CRATE_SETTINGS
  {
    Rdoc.FromCrateShape(ZngurDef.EMPTY_SPEC, krate.order, krate, layoutInfo, primFrom);
  }

  /** `AutoZngur::generate`: renders the crate's spec, with `render` giving
      the outputs for the settings it carries; then the same order of
      writes and the same missing-path panics as `Zngur::generate`, without
      any renaming. */
  function AutoGenerate(a: AutoZngur, render: Settings -> Rendered): (o: Outcome)
    ensures a.rsFile.None? ==> o == Outcome([], Some(NO_RS))
    ensures a.rsFile.Some? && a.hFile.None? ==> o == Outcome([], Some(NO_H))
    ensures a.rsFile.Some? && a.hFile.Some? ==>
              var out := render(CRATE_SETTINGS);
              |o.writes| >= 2 &&
              o.writes[0] == Write(a.rsFile.value, out.rust) &&
              o.writes[1] == Write(a.hFile.value, out.h) &&
              (|o.writes| == 3 <==> out.cpp.Some? && a.cppFile.Some?) &&
              (|o.writes| == 3 ==> o.writes[2] == Write(a.cppFile.value, out.cpp.value)) &&
              (o.error.Some? <==> out.cpp.Some? && a.cppFile.None?)
  {
    var out := render(CRATE_SETTINGS);
    if a.rsFile.None? then Outcome([], Some(NO_RS))
    else if a.hFile.None? then Outcome([], Some(NO_H))
    else
      var first := [Write(a.rsFile.value, out.rust), Write(a.hFile.value, out.h)];
      match out.cpp
      case None => Outcome(first, None)
      case Some(cpp) =>
        if a.cppFile.None? then Outcome(first, Some(NO_CPP))
        else Outcome(first + [Write(a.cppFile.value, cpp)], None)
  }

  /** `AutoZngur` writes what a `Zngur` builder with the same paths and no
      namespace writes when its renderer is handed the crate's settings in
      place of the ones that builder settles: the paths, the order and the
      panics agree, and the only difference is the empty header name,
      namespace and mangling base the crate's spec renders with. */
  lemma AutoGenerateAsBuilder(a: AutoZngur, zng: Path, fileBase: string, render: Settings -> Rendered)
    requires FileName(if a.hFile.Some? then a.hFile.value else []).Some?
    ensures var z := Zngur(zng, a.hFile, a.cppFile, a.rsFile, None, None);
            Generate(z, fileBase, s => render(CRATE_SETTINGS)) == AutoGenerate(a, render)
  {
    var out := render(CRATE_SETTINGS);
    DefaultNamespaceKeepsText(out.h, if out.cpp.Some? then out.cpp.value else "");
  }
}
