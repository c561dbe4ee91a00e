/**
 * The layout cache of the automatic layout extractor
 * (zngur-auto-layout/src/cache.rs): the metadata that decides whether a
 * cached file still describes the current build (compiler version, target
 * triple, enabled features, a hash of the crate's sources), and a `Cache`
 * object whose `Load` and `Save` read, write and delete one file. The file
 * is a field of the object; the compiler's version text, the environment,
 * the clock and the source hash are parameters.
 */
module LayoutCache {
  import opened Wrappers
  import opened StrUtil
  import SeqUtil
  import ZngurDef
  import ZngurApi
  import LayoutExtractor

  // ---- the build environment ----

  /** The build's environment variables, in the order `env::vars` lists them. */
  type Env = seq<(string, string)>

  predicate HasKey(kv: (string, string), key: string) { kv.0 == key }

  /** `env::var(key).unwrap_or_default()`: the first value given to `key`,
      or the empty string. */
  function EnvVar(env: Env, key: string): (r: string)
    ensures (forall i | 0 <= i < |env| :: env[i].0 != key) ==> r == ""
    ensures forall i | 0 <= i < |env| && env[i].0 == key ::
              (forall j | 0 <= j < i :: env[j].0 != key) ==> r == env[i].1
  {
    match SeqUtil.FindFirst(env, kv => HasKey(kv, key))
    case None => ""
    case Some(i) => env[i].1
  }

  // ---- the compiler's commit hash ----

  /** `char::is_ascii_hexdigit`. */
  predicate IsHexDigit(c: char) {
    '0' <= c <= '9' || 'a' <= c <= 'f' || 'A' <= c <= 'F'
  }

  /** A token taken as the compiler's commit hash: 41 hexadecimal digits. */
  predicate IsCommitHash(tok: string) {
    |tok| == 41 && forall i | 0 <= i < |tok| :: IsHexDigit(tok[i])
  }

  /** The first whitespace-separated token of the version text that reads
      as a commit hash, if any. */
  function CommitHash(version: string): (r: Option<string>)
    ensures r.None? <==> forall i | 0 <= i < |Words(version)| :: !IsCommitHash(Words(version)[i])
    ensures r.Some? ==>
              (IsCommitHash(r.value) &&
               exists i | 0 <= i < |Words(version)| :: Words(version)[i] == r.value &&
                 forall j | 0 <= j < i :: !IsCommitHash(Words(version)[j]))
  {
    var ws := Words(version);
    match SeqUtil.FindFirst(ws, IsCommitHash)
    case None => None
    case Some(i) => Some(ws[i])
  }

  /** In a version text made of words separated by single spaces, the
      commit hash is the first word that reads as one. */
  lemma CommitHashOfWords(ws: seq<string>, i: nat)
    requires forall k | 0 <= k < |ws| :: IsWord(ws[k])
    requires i < |ws| && IsCommitHash(ws[i])
    requires forall k | 0 <= k < i :: !IsCommitHash(ws[k])
    ensures CommitHash(Join(ws, " ")) == Some(ws[i])
  {
    WordsOfJoin(ws);
    SeqUtil.FindFirstIs(ws, IsCommitHash, i);
  }

  /** A version text whose words are all shorter than a commit hash has
      none: `rustc --version` prints a short hash in parentheses. */
  lemma ShortWordsHaveNoHash(ws: seq<string>)
    requires forall k | 0 <= k < |ws| :: IsWord(ws[k]) && |ws[k]| < 41
    ensures CommitHash(Join(ws, " ")) == None
  {
    WordsOfJoin(ws);
  }

  // ---- the target triple ----

  const HOST := "host"
  const UNKNOWN := "unknown"

  /** The triple put together from the `CARGO_CFG_TARGET_*` values:
      `"host"` unless both the architecture and the system are known; the
      vendor is kept only alongside an environment. */
  function DetectTriple(arch: string, vendor: string, os: string, abi: string): (r: string)
    ensures r == HOST <==> arch == "" || os == ""
  {
    if arch != "" && os != "" then
      var parts := if vendor != "" && abi != "" then [arch, vendor, os, abi]
                   else if abi != "" then [arch, UNKNOWN, os, abi]
                   else [arch, UNKNOWN, os];
      JoinedNotHost(parts);
      Join(parts, "-")
    else HOST
  }

  /** Parts joined by `-` hold a `-`, which `"host"` does not. */
  lemma JoinedNotHost(parts: seq<string>)
    requires |parts| >= 2
    ensures Join(parts, "-") != HOST
  {
    var j := Join(parts, "-");
    assert j == parts[0] + "-" + Join(parts[1..], "-");
    assert j[|parts[0]|] == '-';
    assert forall i | 0 <= i < |HOST| :: HOST[i] != '-';
  }

  /** The explicit target, else the one detected from the environment. */
  function TargetTriple(target: Option<string>, env: Env): (r: string)
    ensures target.Some? ==> r == target.value
    ensures target.None? ==>
              r == DetectTriple(EnvVar(env, "CARGO_CFG_TARGET_ARCH"), EnvVar(env, "CARGO_CFG_TARGET_VENDOR"),
                                EnvVar(env, "CARGO_CFG_TARGET_OS"), EnvVar(env, "CARGO_CFG_TARGET_ENV"))
  {
    if target.Some? then target.value
    else DetectTriple(EnvVar(env, "CARGO_CFG_TARGET_ARCH"), EnvVar(env, "CARGO_CFG_TARGET_VENDOR"),
                      EnvVar(env, "CARGO_CFG_TARGET_OS"), EnvVar(env, "CARGO_CFG_TARGET_ENV"))
  }

  predicate NoDash(s: string) { forall j | 0 <= j < |s| :: s[j] != '-' }

  /** Splitting a detected triple at `-` recovers its parts: the
      architecture, the vendor (or `unknown`), the system and, when there
      is one, the environment. */
  lemma TripleParts(arch: string, vendor: string, os: string, abi: string)
    requires arch != "" && os != ""
    requires NoDash(arch) && NoDash(vendor) && NoDash(os) && NoDash(abi)
    ensures Split(DetectTriple(arch, vendor, os, abi), "-") ==
              if vendor != "" && abi != "" then [arch, vendor, os, abi]
              else if abi != "" then [arch, UNKNOWN, os, abi]
              else [arch, UNKNOWN, os]
  {
    var parts := if vendor != "" && abi != "" then [arch, vendor, os, abi]
                 else if abi != "" then [arch, UNKNOWN, os, abi]
                 else [arch, UNKNOWN, os];
    assert NoDash(UNKNOWN);
    assert forall i | 0 <= i < |parts| :: NoDash(parts[i]);
    SplitJoinChar(parts, '-');
  }

  // ---- enabled features ----

  const FEATURE_PREFIX := "CARGO_FEATURE_"

  predicate IsFeatureKey(key: string) { StartsWith(key, FEATURE_PREFIX) }

  /** The feature a `CARGO_FEATURE_` variable enables: the rest of its
      name, lower-cased. */
  function FeatureOf(key: string): string
    requires IsFeatureKey(key)
  {
    ToLower(key[|FEATURE_PREFIX|..])
  }

  /** The enabled features in the environment's order. */
  function FeatureNames(env: Env): (r: seq<string>)
    ensures forall k | 0 <= k < |env| && IsFeatureKey(env[k].0) :: FeatureOf(env[k].0) in r
    ensures forall x | x in r :: exists k | 0 <= k < |env| :: IsFeatureKey(env[k].0) && x == FeatureOf(env[k].0)
    decreases |env|
  {
    if |env| == 0 then []
    else
      var rest := FeatureNames(env[1..]);
      assert forall k | 1 <= k < |env| :: env[k] == env[1..][k - 1];
      (if IsFeatureKey(env[0].0) then [FeatureOf(env[0].0)] else []) + rest
  }

  function Id(s: string): string { s }

  /** The enabled features, sorted: the order of the environment does not
      matter. */
  function Features(env: Env): (r: seq<string>)
    ensures SortedBy(r, Id) && multiset(r) == multiset(FeatureNames(env))
  {
    SortBySorted(FeatureNames(env), Id);
    SortBy(FeatureNames(env), Id)
  }

  lemma {:induction false} LexAntisymmetric(a: string, b: string)
    requires LexLe(a, b) && LexLe(b, a)
    ensures a == b
    decreases |a|
  {
    if |a| > 0 {
      LexAntisymmetric(a[1..], b[1..]);
      assert a == [a[0]] + a[1..] && b == [b[0]] + b[1..];
    }
  }

  lemma {:induction false} LexTransitive(a: string, b: string, c: string)
    requires LexLe(a, b) && LexLe(b, c)
    ensures LexLe(a, c)
    decreases |a|
  {
    if |a| > 0 && a[0] == b[0] && b[0] == c[0] {
      LexTransitive(a[1..], b[1..], c[1..]);
    }
  }

  /** The head of a sorted list is below every element. */
  lemma {:induction false} SortedHeadLeast(v: seq<string>, k: nat)
    requires SortedBy(v, Id) && k < |v|
    ensures LexLe(v[0], v[k])
    decreases k
  {
    if k == 0 {
      LexTotal(v[0], v[0]);
    } else {
      SortedHeadLeast(v, k - 1);
      assert LexLe(Id(v[k - 1]), Id(v[k]));
      LexTransitive(v[0], v[k - 1], v[k]);
    }
  }

  /** Two sorted lists holding the same strings are the same list. */
  lemma {:induction false} SortedUnique(a: seq<string>, b: seq<string>)
    requires SortedBy(a, Id) && SortedBy(b, Id) && multiset(a) == multiset(b)
    ensures a == b
    decreases |a|
  {
    if |a| > 0 {
      assert |b| == |multiset(b)| == |multiset(a)| == |a|;
      assert a[0] in multiset(b) && b[0] in multiset(a);
      var i :| 0 <= i < |b| && b[i] == a[0];
      var j :| 0 <= j < |a| && a[j] == b[0];
      SortedHeadLeast(b, i);
      SortedHeadLeast(a, j);
      LexAntisymmetric(a[0], b[0]);
      TailMultiset(a, b);
      SortedUnique(a[1..], b[1..]);
    }
  }

  lemma TailMultiset(a: seq<string>, b: seq<string>)
    requires |a| > 0 && |b| > 0 && a[0] == b[0] && multiset(a) == multiset(b)
    ensures multiset(a[1..]) == multiset(b[1..])
  {
    assert a == [a[0]] + a[1..] && b == [b[0]] + b[1..];
    assert multiset(a) == multiset{a[0]} + multiset(a[1..]);
    assert multiset(b) == multiset{a[0]} + multiset(b[1..]);
    assert multiset(a[1..]) == multiset(a) - multiset{a[0]};
    assert multiset(b[1..]) == multiset(b) - multiset{a[0]};
  }

  /** Environments that enable the same features, in whatever order, give
      the same feature list, so the cache compares them as equal. */
  lemma FeaturesIgnoreOrder(e1: Env, e2: Env)
    requires multiset(FeatureNames(e1)) == multiset(FeatureNames(e2))
    ensures Features(e1) == Features(e2)
  {
    SortedUnique(Features(e1), Features(e2));
  }

  // ---- the metadata ----

  datatype Metadata = Metadata(
    rustcVersion: string,
    rustcCommitHash: Option<string>,
    target: string,
    sourceHash: string,
    features: seq<string>,
    createdAt: string)

  /** `build_metadata`: the version text, its commit hash, the target, the
      sorted features and the creation time; the source hash is left
      empty. A failure to ask the compiler for its version is the error. */
  function BuildMetadata(version: Result<string, string>, target: Option<string>, env: Env, now: string): (r: Result<Metadata, string>)
    ensures version.Err? ==> r == Err(version.error)
    ensures r.Ok? ==>
              (version.Ok? && r.value.rustcVersion == version.value &&
               r.value.rustcCommitHash == CommitHash(version.value) &&
               r.value.target == TargetTriple(target, env) &&
               r.value.sourceHash == "" && r.value.features == Features(env) &&
               SortedBy(r.value.features, Id) && r.value.createdAt == now)
  {
    match version
    case Err(e) => Err(e)
    case Ok(v) => Ok(Metadata(v, CommitHash(v), TargetTriple(target, env), "", Features(env), now))
  }

  /** The parts of the metadata compared before the source hash. */
  predicate SameBuild(cached: Metadata, current: Metadata) {
    cached.rustcVersion == current.rustcVersion && cached.target == current.target &&
    cached.features == current.features
  }

  /** `is_cache_valid`: the compiler version, the target and the features
      are compared first; only then is the source hash computed, and its
      failure is the error. The commit hash and creation time are not
      compared. */
  function IsCacheValid(cached: Metadata, current: Metadata, hash: Result<string, string>): (r: Result<bool, string>)
    ensures r == Ok(true) <==> SameBuild(cached, current) && hash == Ok(cached.sourceHash)
    ensures r.Err? <==> SameBuild(cached, current) && hash.Err?
    ensures r.Err? ==> r.error == hash.error
  {
    if cached.rustcVersion != current.rustcVersion then Ok(false)
    else if cached.target != current.target then Ok(false)
    else if cached.features != current.features then Ok(false)
    else match hash
      case Err(e) => Err(e)
      case Ok(h) => Ok(cached.sourceHash == h)
  }

  /** The metadata `Save` writes is valid for the same build and sources,
      whatever the clock said, and stale once the compiler changes. */
  lemma SavedMetadataValid(current: Metadata, h: string, later: string, otherVersion: string)
    requires otherVersion != current.rustcVersion
    ensures IsCacheValid(current.(sourceHash := h, createdAt := later), current, Ok(h)) == Ok(true)
    ensures IsCacheValid(current.(sourceHash := h), current.(rustcVersion := otherVersion), Ok(h)) == Ok(false)
  {
  }

  /** Validity does not depend on the recorded commit hash or time. */
  lemma ValidityIgnoresCommitAndTime(cached: Metadata, current: Metadata, hash: Result<string, string>, commit: Option<string>, time: string)
    ensures IsCacheValid(cached.(rustcCommitHash := commit, createdAt := time), current, hash) == IsCacheValid(cached, current, hash)
  {
  }

  // ---- the cache file ----

  datatype LayoutInfo = LayoutInfo(size: nat, align: nat)

  datatype CacheData = CacheData(metadata: Metadata, layouts: map<string, LayoutInfo>)

  /** What reading the cache file gives: text that cannot be read, text
      that does not parse as cache data, or the data written last. */
  datatype StoredFile = Unreadable | Corrupt | Data(data: CacheData)

  const CACHE_FILE_NAME := "zngur-layout-cache.json"
  const TEMP_SUBDIR := "zngur-cache"
  const READ_ERROR := "cannot read the cache file"

  /** Where the cache lives: the given directory, else `OUT_DIR`, else a
      directory under the system's temporary directory. */
  function CacheFilePath(cacheDir: Option<ZngurApi.Path>, outDir: Option<ZngurApi.Path>, tempDir: ZngurApi.Path): (r: ZngurApi.Path)
    ensures |r| > 0 && r[|r| - 1] == CACHE_FILE_NAME
    ensures cacheDir.Some? ==> r[..|r| - 1] == cacheDir.value
    ensures cacheDir.None? && outDir.Some? ==> r[..|r| - 1] == outDir.value
    ensures cacheDir.None? && outDir.None? ==> r[..|r| - 1] == tempDir + [TEMP_SUBDIR]
  {
    var dir := if cacheDir.Some? then cacheDir.value else if outDir.Some? then outDir.value else tempDir + [TEMP_SUBDIR];
    dir + [CACHE_FILE_NAME]
  }

  /** The serialisable form of one type's layout: its display and its size
      and alignment. */
  predicate StoredFrom(layouts: map<ZngurDef.RustType, LayoutExtractor.Layout>, key: string, info: LayoutInfo) {
    exists t | t in layouts :: ZngurDef.TypeToString(t) == key &&
      info == LayoutInfo(layouts[t].size, layouts[t].align)
  }

  /** `save`'s key conversion: each type keyed by its display, size and
      alignment copied; types with the same display share one entry. */
  method SerializeLayouts(layouts: map<ZngurDef.RustType, LayoutExtractor.Layout>) returns (out: map<string, LayoutInfo>)
    ensures out.Keys == set t | t in layouts :: ZngurDef.TypeToString(t)
    ensures forall k | k in out :: StoredFrom(layouts, k, out[k])
  {
    out := map[];
    var todo, done := layouts.Keys, {};
    while todo != {}
      invariant todo <= layouts.Keys && done == layouts.Keys - todo
      invariant out.Keys == set t | t in done :: ZngurDef.TypeToString(t)
      invariant forall k | k in out :: StoredFrom(layouts, k, out[k])
      decreases todo
    {
      var t :| t in todo;
      var k := ZngurDef.TypeToString(t);
      DisplaysAdd(done, t);
      out := out[k := LayoutInfo(layouts[t].size, layouts[t].align)];
      todo, done := todo - {t}, done + {t};
    }
    assert done == layouts.Keys;
  }

  lemma DisplaysAdd(done: set<ZngurDef.RustType>, t: ZngurDef.RustType)
    ensures (set u | u in done + {t} :: ZngurDef.TypeToString(u)) ==
            (set u | u in done :: ZngurDef.TypeToString(u)) + {ZngurDef.TypeToString(t)}
  {
  }

  /** When no two types share a display, the stored entry of each type is
      its own layout. */
  lemma StoredEntryIsOwn(layouts: map<ZngurDef.RustType, LayoutExtractor.Layout>, out: map<string, LayoutInfo>, t: ZngurDef.RustType)
    requires out.Keys == set u | u in layouts :: ZngurDef.TypeToString(u)
    requires forall k | k in out :: StoredFrom(layouts, k, out[k])
    requires forall u, v | u in layouts && v in layouts && ZngurDef.TypeToString(u) == ZngurDef.TypeToString(v) :: u == v
    requires t in layouts
    ensures ZngurDef.TypeToString(t) in out
    ensures out[ZngurDef.TypeToString(t)] == LayoutInfo(layouts[t].size, layouts[t].align)
  {
    var k := ZngurDef.TypeToString(t);
    assert k in out;
    var u :| u in layouts && ZngurDef.TypeToString(u) == k && out[k] == LayoutInfo(layouts[u].size, layouts[u].align);
  }

  /** `Cache`: where the file is, the metadata of the current build, and
      the file itself. */
  class Cache {
    const cacheFile: ZngurApi.Path
    const current: Metadata
    var file: Option<StoredFile>

    constructor (cacheFile: ZngurApi.Path, current: Metadata, file: Option<StoredFile>)
      ensures this.cacheFile == cacheFile && this.current == current && this.file == file
    {
      this.cacheFile := cacheFile;
      this.current := current;
      this.file := file;
    }

    /** `Cache::new`: the file's place and the current build's metadata;
      `mkdir` is how creating the directory went and `existing` is what is
      already on disk there. The directory is created first. */
    static method New(cacheDir: Option<ZngurApi.Path>, outDir: Option<ZngurApi.Path>, tempDir: ZngurApi.Path,
                      target: Option<string>, version: Result<string, string>, env: Env, now: string,
                      mkdir: Result<(), string>, existing: Option<StoredFile>) returns (r: Result<Cache, string>)
      ensures r.Err? <==> mkdir.Err? || version.Err?
      ensures mkdir.Err? ==> r == Err(mkdir.error)
      ensures mkdir.Ok? && version.Err? ==> r == Err(version.error)
      ensures r.Ok? ==>
                (fresh(r.value) && r.value.file == existing &&
                 r.value.cacheFile == CacheFilePath(cacheDir, outDir, tempDir) &&
                 BuildMetadata(version, target, env, now) == Ok(r.value.current) &&
                 SortedBy(r.value.current.features, Id))
    {
      var path := CacheFilePath(cacheDir, outDir, tempDir);
      if mkdir.Err? {
        return Err(mkdir.error);
      }
      match BuildMetadata(version, target, env, now)
      case Err(e) =>
        r := Err(e);
      case Ok(m) =>
        var c := new Cache(path, m, existing);
        r := Ok(c);
    }

    /** `load`: no layouts are ever returned. A missing file gives
        nothing; an unreadable one an error; a corrupt or stale one is
        deleted; a valid one is kept. A failure to hash the sources is
        the error, and the file is then kept. */
    method Load(hash: Result<string, string>) returns (r: Result<Option<map<ZngurDef.RustType, LayoutExtractor.Layout>>, string>)
      modifies this
      ensures r.Ok? ==> r.value.None?
      ensures old(file).None? ==> r == Ok(None) && file == None
      ensures old(file) == Some(Unreadable) ==> r == Err(READ_ERROR) && file == old(file)
      ensures old(file) == Some(Corrupt) ==> r == Ok(None) && file == None
      ensures old(file).Some? && old(file).value.Data? ==>
                var v := IsCacheValid(old(file).value.data.metadata, current, hash);
                (v.Err? ==> r == Err(v.error) && file == old(file)) &&
                (v == Ok(false) ==> r == Ok(None) && file == None) &&
                (v == Ok(true) ==> r == Ok(None) && file == old(file))
    {
      match file
      case None =>
        r := Ok(None);
      case Some(Unreadable) =>
        r := Err(READ_ERROR);
      case Some(Corrupt) =>
        file := None;
        r := Ok(None);
      case Some(Data(d)) =>
        match IsCacheValid(d.metadata, current, hash)
        case Err(e) =>
          r := Err(e);
        case Ok(valid) =>
          if !valid {
            file := None;
          }
          r := Ok(None);
    }

    /** `save`: the current metadata with the fresh source hash, and the
        layouts keyed by display. A failure to hash the sources is the
        error, and nothing is written; `write` is how writing the file
        went, and a failed write is the error with the old file kept. */
    method Save(hash: Result<string, string>, layouts: map<ZngurDef.RustType, LayoutExtractor.Layout>,
                write: Result<(), string>) returns (r: Result<(), string>)
      modifies this
      ensures hash.Err? ==> r == Err(hash.error) && file == old(file)
      ensures hash.Ok? && write.Err? ==> r == Err(write.error) && file == old(file)
      ensures hash.Ok? && write.Ok? ==>
                (r == Ok(()) && file.Some? && file.value.Data? &&
                 file.value.data.metadata == current.(sourceHash := hash.value) &&
                 file.value.data.layouts.Keys == (set t | t in layouts :: ZngurDef.TypeToString(t)) &&
                 forall k | k in file.value.data.layouts :: StoredFrom(layouts, k, file.value.data.layouts[k]))
      ensures hash.Ok? && write.Ok? ==> IsCacheValid(file.value.data.metadata, current, hash) == Ok(true)
    {
      match hash
      case Err(e) =>
        r := Err(e);
      case Ok(h) =>
        var stored := SerializeLayouts(layouts);
        if write.Err? {
          return Err(write.error);
        }
        file := Some(Data(CacheData(current.(sourceHash := h), stored)));
        r := Ok(());
    }
  }
}
