/**
 * Loading cfg values from rustc (zngur-cli/src/cfg_extractor.rs): the
 * `RUSTFLAGS` word splitter `parse_rustflags`, the command line handed to
 * rustc or cargo, and the reading of the `key="value"` lines that
 * `--print cfg` writes into a map from key to its values in order.
 * Running the process and reading the environment are left to the caller.
 */
module CfgExtractor {
  import opened Wrappers
  import opened StrUtil
  import SeqUtil

  // ---- parse_rustflags ----

  /** The scanner's states; an escape remembers the state it returns to. */
  datatype State = Delem | Unquoted | Escape(next: State) | Single | Double

  /** The state, the word being built and the words finished so far. */
  datatype Scanner = Scanner(state: State, word: string, flags: seq<string>)

  const START: Scanner := Scanner(Delem, "", [])

  /** The characters that separate words outside quotes. */
  predicate IsSep(c: char) {
    c == '\t' || c == ' ' || c == '\n'
  }

  /** The state an escape goes to after an ordinary character: as written,
      the state it was begun in; with `fix`, an escape begun between words
      goes on into a word. */
  function Resume(next: State, fix: bool): (r: State)
    ensures r == Unquoted <==> next == Unquoted || (fix && next == Delem)
    ensures next != Delem ==> r == next
  {
    if fix && next == Delem then Unquoted else next
  }

  /** One character of the scan. */
  function Step(m: Scanner, c: char, fix: bool): Scanner {
    match m.state
    case Delem =>
      if c == '\'' then m.(state := Single)
      else if c == '"' then m.(state := Double)
      else if c == '\\' then m.(state := Escape(Delem))
      else if IsSep(c) then m
      else Scanner(Unquoted, m.word + [c], m.flags)
    case Unquoted =>
      if c == '\'' then m.(state := Single)
      else if c == '"' then m.(state := Double)
      else if c == '\\' then m.(state := Escape(Unquoted))
      else if IsSep(c) then Scanner(Delem, "", m.flags + [m.word])
      else Scanner(Unquoted, m.word + [c], m.flags)
    case Escape(next) =>
      if (c == '"' || c == '\\') && next == Double then Scanner(Double, m.word + [c], m.flags)
      else if c == '\n' then m.(state := next)
      else Scanner(Resume(next, fix), m.word + ['\\', c], m.flags)
    case Single =>
      if c == '\'' then m.(state := Unquoted) else m.(word := m.word + [c])
    case Double =>
      if c == '"' then m.(state := Unquoted)
      else if c == '\\' then m.(state := Escape(Double))
      else m.(word := m.word + [c])
  }

  /** The scan over `s` from `m`. */
  function Run(m: Scanner, s: string, fix: bool): Scanner
    decreases |s|
  {
    if |s| == 0 then m else Step(Run(m, s[..|s| - 1], fix), s[|s| - 1], fix)
  }

  /** End of input: an open word or quote is flushed, a pending escape
      first adds its backslash; between words nothing is added. */
  function Finish(m: Scanner): (r: seq<string>)
    ensures m.state == Delem ==> r == m.flags
    ensures m.state != Delem ==> |r| == |m.flags| + 1 && r[..|m.flags|] == m.flags
  {
    match m.state
    case Delem => m.flags
    case Escape(_) => m.flags + [m.word + "\\"]
    case _ => m.flags + [m.word]
  }

  function Parse(s: string, fix: bool): seq<string> {
    Finish(Run(START, s, fix))
  }

  /** `parse_rustflags` as written: blank input has no flags, and a single
      plain word is the one flag. */
  function ParseRustflags(s: string): (r: seq<string>)
    ensures (forall i | 0 <= i < |s| :: IsSep(s[i])) ==> r == []
    ensures PlainWord(s) ==> r == [s]
  {
    if forall i | 0 <= i < |s| :: IsSep(s[i]) then
      BlankHasNoFlags(s, false);
      Parse(s, false)
    else if PlainWord(s) then
      FlagsRoundTrip([s], false);
      assert Join([s], " ") == s;
      Parse(s, false)
    else Parse(s, false)
  }

  /** `parse_rustflags` with an escape between words starting a word. */
  function ParseRustflagsCorrected(s: string): seq<string> {
    Parse(s, true)
  }

  /** The scanning loop of `parse_rustflags`, character by character. */
  method ScanRustflags(s: string) returns (flags: seq<string>)
    ensures flags == ParseRustflags(s)
  {
    var word := "";
    var state := Delem;
    flags := [];
    var i := 0;
    while i < |s|
      invariant 0 <= i <= |s|
      invariant Scanner(state, word, flags) == Run(START, s[..i], false)
      decreases |s| - i
    {
      var c := s[i];
      match state {
        case Delem =>
          if c == '\'' { state := Single; }
          else if c == '"' { state := Double; }
          else if c == '\\' { state := Escape(Delem); }
          else if IsSep(c) { }
          else { word := word + [c]; state := Unquoted; }
        case Unquoted =>
          if c == '\'' { state := Single; }
          else if c == '"' { state := Double; }
          else if c == '\\' { state := Escape(Unquoted); }
          else if IsSep(c) { flags := flags + [word]; word := ""; state := Delem; }
          else { word := word + [c]; }
        case Escape(next) =>
          if (c == '"' || c == '\\') && next == Double { word := word + [c]; state := Double; }
          else if c == '\n' { state := next; }
          else { word := word + ['\\', c]; state := next; }
        case Single =>
          if c == '\'' { state := Unquoted; } else { word := word + [c]; }
        case Double =>
          if c == '"' { state := Unquoted; }
          else if c == '\\' { state := Escape(Double); }
          else { word := word + [c]; }
      }
      SeqUtil.PrefixSnoc(s, i);
      i := i + 1;
    }
    assert s[..i] == s;
    match state {
      case Delem =>
      case Escape(_) => word := word + "\\"; flags := flags + [word];
      case _ => flags := flags + [word];
    }
  }

  /** Scanning two pieces is scanning the first and then the second. */
  lemma {:induction false} RunAppend(m: Scanner, a: string, b: string, fix: bool)
    ensures Run(m, a + b, fix) == Run(Run(m, a, fix), b, fix)
    decreases |b|
  {
    if |b| == 0 {
      assert a + b == a;
    } else {
      var b' := b[..|b| - 1];
      assert (a + b)[..|a + b| - 1] == a + b';
      RunAppend(m, a, b', fix);
    }
  }

  lemma RunSnoc(m: Scanner, s: string, c: char, fix: bool)
    ensures Run(m, s + [c], fix) == Step(Run(m, s, fix), c, fix)
  {
    assert (s + [c])[..|s|] == s;
  }

  lemma RunOne(m: Scanner, c: char, fix: bool)
    ensures Run(m, [c], fix) == Step(m, c, fix)
  {
    RunSnoc(m, [], c, fix);
    assert [] + [c] == [c];
  }

  /** Separators between words change nothing. */
  lemma {:induction false} SeparatorsSkipped(m: Scanner, s: string, fix: bool)
    requires m.state == Delem
    requires forall i | 0 <= i < |s| :: IsSep(s[i])
    ensures Run(m, s, fix) == m
    decreases |s|
  {
    if |s| > 0 {
      SeparatorsSkipped(m, s[..|s| - 1], fix);
    }
  }

  /** Input made of separators only, the empty input included, has no words. */
  lemma BlankHasNoFlags(s: string, fix: bool)
    requires forall i | 0 <= i < |s| :: IsSep(s[i])
    ensures Parse(s, fix) == []
  {
    SeparatorsSkipped(START, s, fix);
  }

  /** A character that is a word character everywhere outside quotes. */
  predicate IsPlain(c: char) {
    !IsSep(c) && c != '\'' && c != '"' && c != '\\'
  }

  predicate PlainWord(w: string) {
    |w| > 0 && forall i | 0 <= i < |w| :: IsPlain(w[i])
  }

  /** A plain word read between words or inside a word extends the word. */
  lemma {:induction false} PlainRun(m: Scanner, w: string, fix: bool)
    requires m.state == Unquoted || (m.state == Delem && m.word == "")
    requires PlainWord(w)
    ensures Run(m, w, fix) == Scanner(Unquoted, m.word + w, m.flags)
    decreases |w|
  {
    var init := w[..|w| - 1];
    if |init| > 0 {
      assert forall i | 0 <= i < |init| :: init[i] == w[i];
      PlainRun(m, init, fix);
    }
    assert m.word + init + [w[|w| - 1]] == m.word + w;
  }

  lemma WordAtEnd(flags: seq<string>, w: string, fix: bool)
    requires PlainWord(w)
    ensures Finish(Run(Scanner(Delem, "", flags), w, fix)) == flags + [w]
  {
    PlainRun(Scanner(Delem, "", flags), w, fix);
    assert "" + w == w;
  }

  lemma WordThenSpace(flags: seq<string>, w: string, fix: bool)
    requires PlainWord(w)
    ensures Run(Scanner(Delem, "", flags), w + [' '], fix) == Scanner(Delem, "", flags + [w])
  {
    PlainRun(Scanner(Delem, "", flags), w, fix);
    assert "" + w == w;
    RunSnoc(Scanner(Delem, "", flags), w, ' ', fix);
  }

  /** From between words, words joined by single spaces and the end of
      input yield the words. */
  lemma {:induction false} JoinedWords(ws: seq<string>, flags: seq<string>, fix: bool)
    requires forall i | 0 <= i < |ws| :: PlainWord(ws[i])
    ensures Finish(Run(Scanner(Delem, "", flags), Join(ws, " "), fix)) == flags + ws
    decreases |ws|
  {
    var m := Scanner(Delem, "", flags);
    if |ws| == 1 {
      assert Join(ws, " ") == ws[0];
      WordAtEnd(flags, ws[0], fix);
    } else if |ws| > 1 {
      var w, rest := ws[0], Join(ws[1..], " ");
      assert Join(ws, " ") == (w + [' ']) + rest;
      WordThenSpace(flags, w, fix);
      RunAppend(m, w + [' '], rest, fix);
      JoinedWords(ws[1..], flags + [w], fix);
      assert flags + [w] + ws[1..] == flags + ws;
    }
  }

  /** Plain words joined by spaces split back into the same words. */
  lemma FlagsRoundTrip(ws: seq<string>, fix: bool)
    requires forall i | 0 <= i < |ws| :: PlainWord(ws[i])
    ensures Parse(Join(ws, " "), fix) == ws
  {
    JoinedWords(ws, [], fix);
  }

  /** A character taken literally inside the quote the scanner is in. */
  predicate Literal(q: State, c: char) {
    (q == Single && c != '\'') || (q == Double && c != '"' && c != '\\')
  }

  lemma {:induction false} QuotedRun(m: Scanner, t: string, fix: bool)
    requires m.state == Single || m.state == Double
    requires forall i | 0 <= i < |t| :: Literal(m.state, t[i])
    ensures Run(m, t, fix) == m.(word := m.word + t)
    decreases |t|
  {
    if |t| > 0 {
      var init := t[..|t| - 1];
      assert forall i | 0 <= i < |init| :: init[i] == t[i];
      QuotedRun(m, init, fix);
      assert m.word + init + [t[|t| - 1]] == m.word + t;
    }
  }

  /** Single quotes keep everything between them and are dropped. */
  lemma SingleQuoted(t: string, fix: bool)
    requires forall i | 0 <= i < |t| :: t[i] != '\''
    ensures Parse("'" + t + "'", fix) == [t]
  {
    var m := Step(START, '\'', fix);
    RunOne(START, '\'', fix);
    QuotedRun(m, t, fix);
    RunAppend(START, "'", t, fix);
    RunSnoc(START, "'" + t, '\'', fix);
    assert "" + t == t;
  }

  /** Double quotes keep text without quotes or backslashes and are dropped. */
  lemma DoubleQuoted(t: string, fix: bool)
    requires forall i | 0 <= i < |t| :: t[i] != '"' && t[i] != '\\'
    ensures Parse("\"" + t + "\"", fix) == [t]
  {
    var m := Step(START, '"', fix);
    RunOne(START, '"', fix);
    QuotedRun(m, t, fix);
    RunAppend(START, "\"", t, fix);
    RunSnoc(START, "\"" + t, '"', fix);
    assert "" + t == t;
  }

  /** Inside double quotes a backslash escapes only `"` and `\`; before a
      newline both are dropped; before anything else it is kept. */
  lemma DoubleQuoteEscape(m: Scanner, c: char, fix: bool)
    requires m.state == Double
    ensures var r := Run(m, ['\\', c], fix);
            if c == '"' || c == '\\' then r == m.(word := m.word + [c])
            else if c == '\n' then r == m
            else r == m.(word := m.word + ['\\', c])
  {
    RunOne(m, '\\', fix);
    RunSnoc(m, ['\\'], c, fix);
    assert ['\\'] + [c] == ['\\', c];
  }

  /** A backslash before a newline is a line continuation between words,
      inside a word and inside double quotes. */
  lemma LineContinuation(m: Scanner, fix: bool)
    requires m.state == Delem || m.state == Unquoted || m.state == Double
    ensures Run(m, "\\\n", fix) == m
  {
    RunOne(m, '\\', fix);
    RunSnoc(m, ['\\'], '\n', fix);
    assert ['\\'] + ['\n'] == "\\\n";
  }

  /** A backslash at the end of input is kept at the end of the last word. */
  lemma TrailingBackslash(m: Scanner, fix: bool)
    requires m.state == Delem || m.state == Unquoted || m.state == Double
    ensures Finish(Run(m, "\\", fix)) == m.flags + [m.word + "\\"]
  {
    RunOne(m, '\\', fix);
  }

  /** As written, an escape between words goes back to between words: the
      escaped word is dropped at the end of input, and the next word is
      glued onto it instead of starting afresh. */
  lemma EscapeBetweenWordsLost()
    ensures ParseRustflags("\\a") == []
    ensures ParseRustflags("\\a b") == ["\\ab"]
  {
    RunOne(START, '\\', false);
    RunSnoc(START, ['\\'], 'a', false);
    assert ['\\'] + ['a'] == "\\a";
    var m1 := Run(START, "\\a", false);
    assert m1 == Scanner(Delem, "\\a", []);
    RunSnoc(START, "\\a", ' ', false);
    RunSnoc(START, "\\a ", 'b', false);
    assert "\\a" + [' '] == "\\a " && "\\a " + ['b'] == "\\a b";
    assert "\\a" + ['b'] == "\\ab";
  }

  /** No separators or quotes; backslashes allowed. */
  predicate Unquotable(w: string) {
    forall i | 0 <= i < |w| :: !IsSep(w[i]) && w[i] != '\'' && w[i] != '"'
  }

  /** After the non-empty word `w` the corrected scanner is inside a word
      holding `w`, or in an escape whose backslash ends `w`. */
  predicate InWord(r: Scanner, w: string) {
    r.flags == [] &&
    ((r.state == Unquoted && r.word == w) ||
     ((r.state == Escape(Delem) || r.state == Escape(Unquoted)) && r.word + "\\" == w))
  }

  lemma CorrectedWordStep(p: Scanner, w: string, c: char)
    requires |w| > 0 && InWord(p, w)
    requires !IsSep(c) && c != '\'' && c != '"'
    ensures InWord(Step(p, c, true), w + [c])
  {
    if p.state != Unquoted {
      assert p.word + ['\\', c] == w + [c];
    }
  }

  /** A word without separators or quotes, backslashes included, is read
      whole by the corrected scanner. */
  lemma {:induction false} CorrectedWordRun(w: string)
    requires |w| > 0 && Unquotable(w)
    ensures InWord(Run(START, w, true), w)
    decreases |w|
  {
    var init := w[..|w| - 1];
    var c := w[|w| - 1];
    assert w == init + [c];
    RunSnoc(START, init, c, true);
    if |init| == 0 {
      RunOne(START, c, true);
    } else {
      assert forall i | 0 <= i < |init| :: init[i] == w[i];
      CorrectedWordRun(init);
      CorrectedWordStep(Run(START, init, true), init, c);
    }
  }

  /** The corrected scanner reads any word without separators or quotes,
      one beginning with a backslash included, as itself. */
  lemma CorrectedKeepsEscapedWord(w: string)
    requires |w| > 0 && Unquotable(w)
    ensures ParseRustflagsCorrected(w) == [w]
  {
    CorrectedWordRun(w);
  }

  // ---- the rustc command ----

  /** The options of `CfgFromRustc` that shape the command. */
  datatype CfgArgs = CfgArgs(
    useCargoRustc: bool,
    rustcFlags: Option<string>,
    rustcTarget: Option<string>,
    cargoProfile: Option<string>,
    cargoPackage: Option<string>,
    noDefaultFeatures: bool,
    allFeatures: bool)

  /** The words of `RUSTFLAGS` followed by those of `--rustc-flags`. */
  function Rustflags(args: CfgArgs, envFlags: seq<string>): seq<string> {
    envFlags + (if args.rustcFlags.Some? then ParseRustflags(args.rustcFlags.value) else [])
  }

  /** `cargo rustc` and its options, in the order they are added. */
  function CargoOptions(args: CfgArgs, features: seq<string>): (r: seq<string>)
    ensures |r| > 0 && r[0] == "rustc"
    ensures args.allFeatures ==> "--all-features" in r
    ensures args.noDefaultFeatures ==> r[|r| - 1] == "--no-default-features"
  {
    ["rustc"]
    + (if args.cargoPackage.Some? then ["--package", args.cargoPackage.value] else [])
    + (if args.cargoProfile.Some? then ["--profile", args.cargoProfile.value] else [])
    + (if |features| > 0 && !args.allFeatures then ["--features", Join(features, ",")] else [])
    + (if args.allFeatures then ["--all-features"] else [])
    + (if args.noDefaultFeatures then ["--no-default-features"] else [])
  }

  /** The program `cfg_from_rustc` runs and its arguments, given the words
      of `RUSTFLAGS` and the crate features. */
  function Command(args: CfgArgs, envFlags: seq<string>, features: seq<string>): (string, seq<string>) {
    var head := (if args.useCargoRustc then CargoOptions(args, features) else [])
      + (if args.rustcTarget.Some? then ["--target", args.rustcTarget.value] else [])
      + (if args.useCargoRustc then ["--"] else []);
    (if args.useCargoRustc then "cargo" else "rustc", head + Rustflags(args, envFlags) + ["--print", "cfg"])
  }

  /** The flags come last before `--print cfg`; with cargo they follow the
      cargo options, the target and `--`; with rustc only the target
      precedes them. */
  lemma CommandShape(args: CfgArgs, envFlags: seq<string>, features: seq<string>)
    ensures var (prog, a) := Command(args, envFlags, features);
            var flags := Rustflags(args, envFlags);
            var target := if args.rustcTarget.Some? then ["--target", args.rustcTarget.value] else [];
            if args.useCargoRustc then
              prog == "cargo" && a == CargoOptions(args, features) + target + ["--"] + flags + ["--print", "cfg"]
            else
              prog == "rustc" && a == target + flags + ["--print", "cfg"]
  {
  }

  // ---- `--print cfg` lines ----

  /** `line.trim().split_once('=')`, or the untrimmed line and an empty
      value when the trimmed line has no `=`. */
  function KeyValue(line: string): (r: (string, string))
    ensures Contains(Trim(line), "=") ==> r.0 + "=" + r.1 == Trim(line) && !Contains(r.0, "=")
    ensures !Contains(Trim(line), "=") ==> r == (line, "")
  {
    var t := Trim(line);
    match Find(t, "=")
    case None => (line, "")
    case Some(i) =>
      assert t[..i] + "=" + t[i + 1..] == t by {
        assert t[i..i + 1] == "=";
        assert t == t[..i] + t[i..i + 1] + t[i + 1..];
      }
      assert !Contains(t[..i], "=") by {
        forall j: nat | j + 1 <= i ensures !OccursAt(t[..i], "=", j) {
          assert !OccursAt(t, "=", j);
          assert t[..i][j..j + 1] == t[j..j + 1];
        }
      }
      (t[..i], t[i + 1..])
  }

  predicate Quoted(v: string) {
    |v| >= 2 && v[0] == '"' && v[|v| - 1] == '"'
  }

  /** A value of at least two characters between double quotes loses the
      quotes; any other value is kept. */
  function StripQuotes(v: string): (r: string)
    ensures Quoted(v) ==> "\"" + r + "\"" == v
    ensures !Quoted(v) ==> r == v
  {
    if Quoted(v) then v[1..|v| - 1] else v
  }

  lemma StripQuotesOfQuoted(v: string)
    ensures StripQuotes("\"" + v + "\"") == v
  {
    assert Quoted("\"" + v + "\"");
  }

  predicate Blank(line: string) {
    |Trim(line)| == 0
  }

  /** The map the loop over `--print cfg` lines builds. */
  function CfgOf(lines: seq<string>): map<string, seq<string>>
    decreases |lines|
  {
    if |lines| == 0 then map[]
    else
      var m := CfgOf(lines[..|lines| - 1]);
      var line := lines[|lines| - 1];
      if Blank(line) then m
      else
        var kv := KeyValue(line);
        m[kv.0 := (if kv.0 in m then m[kv.0] else []) + [StripQuotes(kv.1)]]
  }

  /** The values of the key `k`, line by line. */
  function ValuesOf(lines: seq<string>, k: string): seq<string>
    decreases |lines|
  {
    if |lines| == 0 then []
    else
      var line := lines[|lines| - 1];
      ValuesOf(lines[..|lines| - 1], k)
        + (if !Blank(line) && KeyValue(line).0 == k then [StripQuotes(KeyValue(line).1)] else [])
  }

  /** A key is in the map exactly when some non-blank line names it, and
      it holds that key's values in the order of the lines. */
  lemma {:induction false} CfgValuesInOrder(lines: seq<string>, k: string)
    ensures k in CfgOf(lines) <==> |ValuesOf(lines, k)| > 0
    ensures k in CfgOf(lines) ==> CfgOf(lines)[k] == ValuesOf(lines, k)
    decreases |lines|
  {
    if |lines| > 0 {
      CfgValuesInOrder(lines[..|lines| - 1], k);
    }
  }

  /** The loop over the lines of rustc's output. */
  method CfgFromOutput(out: string) returns (cfg: map<string, seq<string>>)
    ensures cfg == CfgOf(Split(out, "\n"))
  {
    var lines := Split(out, "\n");
    cfg := map[];
    var i := 0;
    while i < |lines|
      invariant 0 <= i <= |lines|
      invariant cfg == CfgOf(lines[..i])
      decreases |lines| - i
    {
      var line := lines[i];
      SeqUtil.PrefixSnoc(lines, i);
      assert lines[..i + 1][..i] == lines[..i];
      if !Blank(line) {
        var kv := KeyValue(line);
        var entry := if kv.0 in cfg then cfg[kv.0] else [];
        cfg := cfg[kv.0 := entry + [StripQuotes(kv.1)]];
      }
      i := i + 1;
    }
    assert lines[..i] == lines;
  }
}
