/**
 * Layout extraction by compiling a probe (zngur-auto-layout/src/extractor.rs):
 * the probe's source text with one `[size, align]` static per type in its
 * own object-file section, the reading back of a section's bytes as a
 * layout, the Rust spelling of a type used in the probe, and the lookup of
 * the crate's name and library file. Running cargo and rustc, and reading
 * object files and directories, are left to the caller.
 */
module LayoutExtractor {
  import opened Wrappers
  import opened StrUtil
  import ZngurDef
  import SeqUtil

  // ---- bytes ----

  type byte = x: int | 0 <= x < 256

  datatype Endianness = Little | Big

  datatype Layout = Layout(size: nat, align: nat)

  /** Why reading a layout failed. */
  datatype ParseFailure =
    | TooShort(expected: nat, got: nat)
    | UnsupportedPointerSize(ptrSize: nat)
    | SectionNotFound(index: nat)

  function Pow256(k: nat): (r: nat)
    ensures r > 0
  {
    if k == 0 then 1 else 256 * Pow256(k - 1)
  }

  /** `from_le_bytes`: the first byte is the least significant. */
  function FromLe(b: seq<byte>): (r: nat)
    ensures r < Pow256(|b|)
  {
    if |b| == 0 then 0 else b[0] + 256 * FromLe(b[1..])
  }

  /** `from_be_bytes`: the last byte is the least significant. */
  function FromBe(b: seq<byte>): (r: nat)
    ensures r < Pow256(|b|)
  {
    if |b| == 0 then 0 else FromBe(b[..|b| - 1]) * 256 + b[|b| - 1]
  }

  /** `to_le_bytes` of the low `k` bytes of `n`. */
  function ToLe(n: nat, k: nat): (r: seq<byte>)
    ensures |r| == k
  {
    if k == 0 then [] else [n % 256] + ToLe(n / 256, k - 1)
  }

  /** `to_be_bytes` of the low `k` bytes of `n`. */
  function ToBe(n: nat, k: nat): (r: seq<byte>)
    ensures |r| == k
  {
    if k == 0 then [] else ToBe(n / 256, k - 1) + [n % 256]
  }

  lemma {:induction false} LeRoundTrip(n: nat, k: nat)
    requires n < Pow256(k)
    ensures FromLe(ToLe(n, k)) == n
    decreases k
  {
    if k > 0 {
      LeRoundTrip(n / 256, k - 1);
      assert ToLe(n, k)[1..] == ToLe(n / 256, k - 1);
    }
  }

  lemma {:induction false} LeBytesRoundTrip(b: seq<byte>)
    ensures ToLe(FromLe(b), |b|) == b
    decreases |b|
  {
    if |b| > 0 {
      LeBytesRoundTrip(b[1..]);
      var n := FromLe(b);
      assert n % 256 == b[0] && n / 256 == FromLe(b[1..]);
    }
  }

  lemma {:induction false} BeRoundTrip(n: nat, k: nat)
    requires n < Pow256(k)
    ensures FromBe(ToBe(n, k)) == n
    decreases k
  {
    if k > 0 {
      BeRoundTrip(n / 256, k - 1);
      var b := ToBe(n, k);
      assert b[..|b| - 1] == ToBe(n / 256, k - 1);
    }
  }

  lemma {:induction false} BeBytesRoundTrip(b: seq<byte>)
    ensures ToBe(FromBe(b), |b|) == b
    decreases |b|
  {
    if |b| > 0 {
      var init := b[..|b| - 1];
      BeBytesRoundTrip(init);
      var n := FromBe(b);
      assert n % 256 == b[|b| - 1] && n / 256 == FromBe(init);
      assert init + [b[|b| - 1]] == b;
    }
  }

  function Decode(b: seq<byte>, e: Endianness): (r: nat)
    ensures r < Pow256(|b|)
  {
    if e == Little then FromLe(b) else FromBe(b)
  }

  function Encode(n: nat, k: nat, e: Endianness): (r: seq<byte>)
    ensures |r| == k
  {
    if e == Little then ToLe(n, k) else ToBe(n, k)
  }

  lemma DecodeEncode(n: nat, k: nat, e: Endianness)
    requires n < Pow256(k)
    ensures Decode(Encode(n, k, e), e) == n
  {
    if e == Little { LeRoundTrip(n, k); } else { BeRoundTrip(n, k); }
  }

  /** `parse_layout_from_bytes`: the first pointer-sized word is the size,
      the second the alignment. */
  function ParseLayoutFromBytes(data: seq<byte>, ptrSize: nat, e: Endianness): (r: Result<Layout, ParseFailure>)
    ensures r == Err(TooShort(2 * ptrSize, |data|)) <==> |data| < 2 * ptrSize
    ensures r == Err(UnsupportedPointerSize(ptrSize)) <==> |data| >= 2 * ptrSize && ptrSize != 4 && ptrSize != 8
    ensures r.Ok? ==> r.value.size < Pow256(ptrSize) && r.value.align < Pow256(ptrSize)
  {
    if |data| < ptrSize * 2 then Err(TooShort(ptrSize * 2, |data|))
    else if ptrSize != 8 && ptrSize != 4 then Err(UnsupportedPointerSize(ptrSize))
    else Ok(Layout(Decode(data[0..ptrSize], e), Decode(data[ptrSize..2 * ptrSize], e)))
  }

  /** The bytes of a `[usize; 2]` holding the layout. */
  function EncodeLayout(l: Layout, ptrSize: nat, e: Endianness): seq<byte> {
    Encode(l.size, ptrSize, e) + Encode(l.align, ptrSize, e)
  }

  /** Reading back the bytes of a `[size, align]` array gives the layout,
      whatever follows them in the section. */
  lemma LayoutRoundTrip(l: Layout, ptrSize: nat, e: Endianness, rest: seq<byte>)
    requires ptrSize == 4 || ptrSize == 8
    requires l.size < Pow256(ptrSize) && l.align < Pow256(ptrSize)
    ensures ParseLayoutFromBytes(EncodeLayout(l, ptrSize, e) + rest, ptrSize, e) == Ok(l)
  {
    var a, b := Encode(l.size, ptrSize, e), Encode(l.align, ptrSize, e);
    var data := a + b + rest;
    assert data[0..ptrSize] == a;
    assert data[ptrSize..2 * ptrSize] == b;
    DecodeEncode(l.size, ptrSize, e);
    DecodeEncode(l.align, ptrSize, e);
  }

  // ---- the Rust spelling of a type ----

  /** The types the probe's printer has an arm for: `char` and `impl`
      types, and template variables, have none. */
  predicate Printable(t: ZngurDef.RustType)
    decreases t
  {
    match t
    case Primitive(p) => !p.Char?
    case Ref(_, i) => Printable(i)
    case Raw(_, i) => Printable(i)
    case Boxed(i) => Printable(i)
    case Slice(i) => Printable(i)
    case Dyn(_, _) => true
    case Tuple(es) => forall k | 0 <= k < |es| :: Printable(es[k])
    case Adt(pg) =>
      (forall k | 0 <= k < |pg.generics| :: Printable(pg.generics[k])) &&
      (forall k | 0 <= k < |pg.namedGenerics| :: Printable(pg.namedGenerics[k].ty))
    case Impl(_, _) => false
    case TypeVar(_) => false
  }

  function PrimitiveString(p: ZngurDef.PrimitiveRustType): string
    requires !p.Char?
  {
    if p.ZngurCppOpaqueOwnedObject? then "zngur_types::ZngurCppOpaqueOwnedObject" else ZngurDef.PrimitiveToString(p)
  }

  /** `rust_type_to_string`: the type as source text the probe can name. */
  function TypeString(t: ZngurDef.RustType): string
    requires Printable(t)
    decreases t, 1
  {
    match t
    case Primitive(p) => PrimitiveString(p)
    case Ref(m, i) => "&" + (if m == ZngurDef.Mut then "mut " else "") + TypeString(i)
    case Raw(m, i) => "*" + (if m == ZngurDef.Mut then "mut " else "const ") + TypeString(i)
    case Boxed(i) => "Box<" + TypeString(i) + ">"
    case Slice(i) => "[" + TypeString(i) + "]"
    case Dyn(tr, _) => "dyn " + ZngurDef.TraitToString(tr)
    case Tuple(es) => if |es| == 0 then "()" else "(" + Join(TypeStrings(es), ", ") + ")"
    case Adt(pg) =>
      if |pg.generics| == 0 && |pg.namedGenerics| == 0 then Join(pg.path, "::")
      else Join(pg.path, "::") + "<" + Join(TypeStrings(pg.generics) + NamedStrings(pg.namedGenerics), ", ") + ">"
  }

  function TypeStrings(ts: seq<ZngurDef.RustType>): (r: seq<string>)
    requires forall k | 0 <= k < |ts| :: Printable(ts[k])
    ensures |r| == |ts|
    decreases ts, 0
  {
    if |ts| == 0 then [] else [TypeString(ts[0])] + TypeStrings(ts[1..])
  }

  function NamedStrings(ns: seq<ZngurDef.Named>): (r: seq<string>)
    requires forall k | 0 <= k < |ns| :: Printable(ns[k].ty)
    ensures |r| == |ns|
    decreases ns, 0
  {
    if |ns| == 0 then [] else [ns[0].name + " = " + TypeString(ns[0].ty)] + NamedStrings(ns[1..])
  }

  /** Types built from primitives other than the opaque object, by
      references, pointers, boxes, slices and tuples. */
  predicate Structural(t: ZngurDef.RustType)
    decreases t
  {
    match t
    case Primitive(p) => !p.Char? && !p.ZngurCppOpaqueOwnedObject?
    case Ref(_, i) => Structural(i)
    case Raw(_, i) => Structural(i)
    case Boxed(i) => Structural(i)
    case Slice(i) => Structural(i)
    case Tuple(es) => forall k | 0 <= k < |es| :: Structural(es[k])
    case _ => false
  }

  lemma {:induction false} StructuralPrintable(t: ZngurDef.RustType)
    requires Structural(t)
    ensures Printable(t)
    decreases t
  {
    match t
    case Ref(_, i) => StructuralPrintable(i);
    case Raw(_, i) => StructuralPrintable(i);
    case Boxed(i) => StructuralPrintable(i);
    case Slice(i) => StructuralPrintable(i);
    case Tuple(es) =>
      forall k | 0 <= k < |es| ensures Printable(es[k]) { StructuralPrintable(es[k]); }
    case _ =>
  }

  /** On structural types the probe's spelling is the type's display. */
  lemma {:induction false} StructuralMatchesDisplay(t: ZngurDef.RustType)
    requires Structural(t)
    ensures Printable(t) && TypeString(t) == ZngurDef.TypeToString(t)
    decreases t, 1
  {
    StructuralPrintable(t);
    match t
    case Ref(_, i) => StructuralMatchesDisplay(i);
    case Raw(_, i) => StructuralMatchesDisplay(i);
    case Boxed(i) => StructuralMatchesDisplay(i);
    case Slice(i) => StructuralMatchesDisplay(i);
    case Tuple(es) => StructuralListsMatch(es);
    case Primitive(_) =>
  }

  lemma {:induction false} StructuralListsMatch(ts: seq<ZngurDef.RustType>)
    requires forall k | 0 <= k < |ts| :: Structural(ts[k])
    ensures (forall k | 0 <= k < |ts| :: Printable(ts[k])) && TypeStrings(ts) == ZngurDef.TypesToStrings(ts)
    decreases ts, 0
  {
    if |ts| > 0 {
      StructuralMatchesDisplay(ts[0]);
      StructuralListsMatch(ts[1..]);
      assert forall k | 0 <= k < |ts| :: Printable(ts[k]) by {
        forall k | 0 <= k < |ts| ensures Printable(ts[k]) {
          if k > 0 { assert ts[k] == ts[1..][k - 1]; }
        }
      }
    }
  }

  /** The probe spells a path relative to the crate's scope (`a::b`); the
      display writes it absolute (`::a::b`). */
  lemma {:induction false} PathRelativeToDisplay(path: seq<string>)
    requires |path| > 0
    requires forall k | 0 <= k < |path| :: path[k] != "crate"
    ensures ZngurDef.SegmentsToString(path) == "::" + Join(path, "::")
    decreases |path|
  {
    if |path| > 1 {
      PathRelativeToDisplay(path[1..]);
    }
  }

  /** A path with generic arguments is written with `<…>` and without a
      turbofish; one without is the path alone. */
  lemma AdtString(pg: ZngurDef.RustPathAndGenerics)
    requires Printable(ZngurDef.Adt(pg))
    ensures |pg.generics| == 0 && |pg.namedGenerics| == 0 ==> TypeString(ZngurDef.Adt(pg)) == Join(pg.path, "::")
    ensures |pg.generics| + |pg.namedGenerics| > 0 ==>
              StartsWith(TypeString(ZngurDef.Adt(pg)), Join(pg.path, "::") + "<") &&
              EndsWith(TypeString(ZngurDef.Adt(pg)), ">")
  {
  }

  // ---- sections ----

  /** `is_macho_target`: an explicit target names Apple, Darwin or iOS;
      without one, the host decides. */
  function IsMachoTarget(target: Option<string>, hostApple: bool): (r: bool)
    ensures target.None? ==> r == hostApple
    ensures target.Some? ==> (r <==> Contains(target.value, "apple") || Contains(target.value, "darwin") || Contains(target.value, "ios"))
  {
    match target
    case Some(t) => Contains(t, "apple") || Contains(t, "darwin") || Contains(t, "ios")
    case None => hostApple
  }

  /** The `link_section` of the static for type `idx`. */
  function LinkSection(macho: bool, idx: nat): string {
    if macho then "__DATA,__zngur" + NatToString(idx) else ".zngur_" + NatToString(idx)
  }

  /** The section name the object file reports for that static: the
      section part only, for Mach-O. */
  function ObjectSectionName(macho: bool, idx: nat): string {
    if macho then "__zngur" + NatToString(idx) else ".zngur_" + NatToString(idx)
  }

  /** The test in `find_layout_section`, as written. */
  predicate SectionMatches(name: string, idx: nat) {
    var suffix := "zngur_" + NatToString(idx);
    EndsWith(name, suffix) || Contains(name, "." + suffix)
    || name == "__zngur" + NatToString(idx) || EndsWith(name, "__zngur" + NatToString(idx))
  }

  /** The test with the `contains` clause dropped: the name must end in
      the index. */
  predicate SectionMatchesExactly(name: string, idx: nat) {
    EndsWith(name, "zngur_" + NatToString(idx)) || EndsWith(name, "__zngur" + NatToString(idx))
  }

  /** Every static's own section is found by its index. */
  lemma OwnSectionFound(macho: bool, idx: nat)
    ensures SectionMatches(ObjectSectionName(macho, idx), idx)
    ensures SectionMatchesExactly(ObjectSectionName(macho, idx), idx)
    ensures EndsWith(LinkSection(macho, idx), ObjectSectionName(macho, idx))
  {
    var d := NatToString(idx);
    if macho {
      assert "__DATA,__zngur" + d == "__DATA," + ("__zngur" + d);
    } else {
      assert ".zngur_" + d == "." + ("zngur_" + d);
    }
  }

  /** As written, the section of type 10 is taken for type 1: its name
      contains `.zngur_1`. */
  lemma SectionOfTenMatchesOne()
    ensures SectionMatches(ObjectSectionName(false, 10), 1)
    ensures !SectionMatchesExactly(ObjectSectionName(false, 10), 1)
  {
    assert NatToString(1) == "1";
    assert NatToString(10) == "10" by { assert NatToString(10) == NatToString(1) + [DigitChar(0)]; }
    var name := ".zngur_10";
    assert ObjectSectionName(false, 10) == name;
    assert "." + ("zngur_" + NatToString(1)) == ".zngur_1";
    assert OccursAt(name, "." + ("zngur_" + NatToString(1)), 0);
    assert name[|name| - 7..] == "ngur_10" && "ngur_10"[0] != ("zngur_" + NatToString(1))[0];
    assert name[|name| - 8..] == "zngur_10" && "zngur_10"[0] != ("__zngur" + NatToString(1))[0];
  }

  /** A suffix agrees with the text it ends at one given position. */
  lemma EndsAtIndex(s: string, q: string, i: nat)
    requires EndsWith(s, q) && i < |q|
    ensures s[|s| - |q| + i] == q[i]
  {
    assert s[|s| - |q|..][i] == q[i];
  }

  /** When the text has more digits at its end than the suffix, the mark
      before the suffix's digits is one of the text's digits. */
  lemma FewerSuffixDigitsMarkIsDigit(x: string, c1: char, d1: string, p: string, c2: char, d2: string)
    requires AllDigits(d1)
    requires EndsWith(x + [c1] + d1, p + [c2] + d2)
    ensures |d2| < |d1| ==> IsDigit(c2)
  {
    var s := x + [c1] + d1;
    var q := p + [c2] + d2;
    if |d2| < |d1| {
      EndsAtIndex(s, q, |p|);
      assert q[|p|] == c2;
      assert |s| - |q| + |p| == |x| + 1 + (|d1| - |d2| - 1);
      assert s[|x| + 1 + (|d1| - |d2| - 1)] == d1[|d1| - |d2| - 1];
    }
  }

  /** When the suffix has more digits at its end than the text, the mark
      before the text's digits is one of the suffix's digits. */
  lemma MoreSuffixDigitsMarkIsDigit(x: string, c1: char, d1: string, p: string, c2: char, d2: string)
    requires AllDigits(d2)
    requires EndsWith(x + [c1] + d1, p + [c2] + d2)
    ensures |d2| > |d1| ==> IsDigit(c1)
  {
    var s := x + [c1] + d1;
    var q := p + [c2] + d2;
    if |d2| > |d1| {
      var k := |q| - |d1| - 1;
      EndsAtIndex(s, q, k);
      assert |s| - |q| + k == |x|;
      assert s[|x|] == c1;
      assert k == |p| + 1 + (|d2| - |d1| - 1);
      assert q[k] == d2[|d2| - |d1| - 1];
    }
  }

  /** Two digit strings that end the same text, each after a non-digit,
      are the same, after the same character. */
  lemma DigitTails(x: string, c1: char, d1: string, p: string, c2: char, d2: string)
    requires AllDigits(d1) && AllDigits(d2) && !IsDigit(c1) && !IsDigit(c2)
    requires EndsWith(x + [c1] + d1, p + [c2] + d2)
    ensures d1 == d2 && c1 == c2
  {
    FewerSuffixDigitsMarkIsDigit(x, c1, d1, p, c2, d2);
    MoreSuffixDigitsMarkIsDigit(x, c1, d1, p, c2, d2);
    SameLengthTails(x + [c1] + d1, p + [c2] + d2, [c1] + d1, [c2] + d2);
    assert ([c1] + d1)[0] == c1 && ([c1] + d1)[1..] == d1;
    assert ([c2] + d2)[0] == c2 && ([c2] + d2)[1..] == d2;
  }

  /** Equal-length tails of a text and of a suffix of it are equal. */
  lemma SameLengthTails(s: string, q: string, a: string, b: string)
    requires EndsWith(s, q) && EndsWith(s, a) && EndsWith(q, b) && |a| == |b|
    ensures a == b
  {
    assert s[|s| - |q|..][|q| - |b|..] == s[|s| - |b|..];
  }

  /** With the corrected test, no static's section is taken for another
      type's index. */
  lemma ExactMatchIsOwnIndex(macho: bool, j: nat, i: nat)
    requires SectionMatchesExactly(ObjectSectionName(macho, j), i)
    ensures i == j
  {
    var di, dj := NatToString(i), NatToString(j);
    var name := ObjectSectionName(macho, j);
    var x, c1 := if macho then "__zngu" else ".zngur", if macho then 'r' else '_';
    assert name == x + [c1] + dj;
    if EndsWith(name, "zngur_" + di) {
      assert "zngur_" + di == "zngur" + ['_'] + di;
      SuffixIndex(x, c1, j, "zngur", '_', i);
    } else {
      assert "__zngur" + di == "__zngu" + ['r'] + di;
      SuffixIndex(x, c1, j, "__zngu", 'r', i);
    }
  }

  /** Two names that end in a non-digit and an index: one ending in the
      other have the same index. */
  lemma SuffixIndex(x: string, c1: char, j: nat, p: string, c2: char, i: nat)
    requires !IsDigit(c1) && !IsDigit(c2)
    requires EndsWith(x + [c1] + NatToString(j), p + [c2] + NatToString(i))
    ensures i == j
  {
    NatToStringDigits(i);
    NatToStringDigits(j);
    DigitTails(x, c1, NatToString(j), p, c2, NatToString(i));
    NatToStringInjective(i, j);
  }

  /** A section of the object file; its name may fail to read. */
  datatype Section = Section(name: Option<string>, data: seq<byte>)

  predicate Passes(sec: Section, idx: nat) {
    sec.name.Some? && SectionMatches(sec.name.value, idx)
  }

  /** `find_layout_section`: the data of the first section whose name
      passes the test. */
  function FindLayoutSection(sections: seq<Section>, idx: nat): (r: Result<seq<byte>, ParseFailure>)
    ensures r.Err? <==> forall k | 0 <= k < |sections| :: !Passes(sections[k], idx)
    ensures r.Err? ==> r.error == SectionNotFound(idx)
    ensures r.Ok? ==> exists k | 0 <= k < |sections| ::
              Passes(sections[k], idx) && sections[k].data == r.value && forall k' | 0 <= k' < k :: !Passes(sections[k'], idx)
  {
    match SeqUtil.FindFirst(sections, sec => Passes(sec, idx))
    case None => Err(SectionNotFound(idx))
    case Some(k) => Ok(sections[k].data)
  }

  // ---- the probe ----

  const PROBE_HEAD := "#![allow(dead_code)]\nuse std::mem::{size_of, align_of};\n\n"
  const PROBE_TAIL := "fn main() {}\n"

  /** The static for type `idx`, spelled `ty`. */
  function Static(section: string, idx: nat, ty: string): string {
    "#[used]\n#[link_section = \"" + section + "\"]\nstatic ZNGUR_LAYOUT_" + NatToString(idx)
    + ": [usize; 2] = [\n    size_of::<" + ty + ">(),\n    align_of::<" + ty + ">(),\n];\n\n"
  }

  /** The statics for the first `n` types, in order. */
  function Statics(types: seq<ZngurDef.RustType>, macho: bool, n: nat): string
    requires n <= |types| && forall k | 0 <= k < |types| :: Printable(types[k])
  {
    if n == 0 then "" else Statics(types, macho, n - 1) + Static(LinkSection(macho, n - 1), n - 1, TypeString(types[n - 1]))
  }

  /** `generate_extraction_code`: the header, one static per type in
      order, and an empty `main`. */
  method GenerateExtractionCode(types: seq<ZngurDef.RustType>, macho: bool) returns (code: string)
    requires forall k | 0 <= k < |types| :: Printable(types[k])
    ensures code == PROBE_HEAD + Statics(types, macho, |types|) + PROBE_TAIL
  {
    code := PROBE_HEAD;
    var idx := 0;
    while idx < |types|
      invariant 0 <= idx <= |types|
      invariant code == PROBE_HEAD + Statics(types, macho, idx)
      decreases |types| - idx
    {
      var typeStr := TypeString(types[idx]);
      var sectionName := LinkSection(macho, idx);
      StaticsStep(types, macho, idx, PROBE_HEAD, code);
      code := code + Static(sectionName, idx, typeStr);
      idx := idx + 1;
    }
    code := code + PROBE_TAIL;
  }

  lemma StaticsStep(types: seq<ZngurDef.RustType>, macho: bool, idx: nat, head: string, code: string)
    requires idx < |types| && forall k | 0 <= k < |types| :: Printable(types[k])
    requires code == head + Statics(types, macho, idx)
    ensures code + Static(LinkSection(macho, idx), idx, TypeString(types[idx])) == head + Statics(types, macho, idx + 1)
  {
    var x := Static(LinkSection(macho, idx), idx, TypeString(types[idx]));
    assert Statics(types, macho, idx + 1) == Statics(types, macho, idx) + x;
    SeqUtil.AppendAssoc(head, Statics(types, macho, idx), x);
  }

  lemma StartsWithAppend(a: string, x: string, b: string)
    requires StartsWith(a, b)
    ensures StartsWith(a + x, b)
  {
    assert (a + x)[..|b|] == a[..|b|];
  }

  /** Adding a type adds its static after the others': earlier statics
      are untouched. */
  lemma StaticsExtend(types: seq<ZngurDef.RustType>, macho: bool, m: nat, n: nat)
    requires m <= n <= |types| && forall k | 0 <= k < |types| :: Printable(types[k])
    ensures StartsWith(Statics(types, macho, n), Statics(types, macho, m))
    decreases n - m
  {
    if m < n {
      StaticsExtend(types, macho, m, n - 1);
      StartsWithAppend(Statics(types, macho, n - 1), Static(LinkSection(macho, n - 1), n - 1, TypeString(types[n - 1])), Statics(types, macho, m));
    } else {
      assert Statics(types, macho, n)[..|Statics(types, macho, m)|] == Statics(types, macho, m);
    }
  }

  /** `extract_from_object`: each type's layout read from its own
      section; the first failure is the result. */
  function ExtractFromObject(sections: seq<Section>, types: seq<ZngurDef.RustType>, ptrSize: nat, e: Endianness): Result<map<ZngurDef.RustType, Layout>, ParseFailure> {
    CollectLayouts(types, (idx: nat) => LayoutAt(sections, idx, ptrSize, e))
  }

  /** The layout in the section of type `idx`. */
  function LayoutAt(sections: seq<Section>, idx: nat, ptrSize: nat, e: Endianness): Result<Layout, ParseFailure> {
    match FindLayoutSection(sections, idx)
    case Err(f) => Err(f)
    case Ok(data) => ParseLayoutFromBytes(data, ptrSize, e)
  }

  /** The loop of `extract_from_object`, given how the layout of the type
      at each index is read. */
  function CollectLayouts<K>(types: seq<K>, at: nat -> Result<Layout, ParseFailure>): Result<map<K, Layout>, ParseFailure>
    decreases |types|
  {
    if |types| == 0 then Ok(map[])
    else match CollectLayouts(types[..|types| - 1], at)
      case Err(f) => Err(f)
      case Ok(m) =>
        match at(|types| - 1)
        case Err(f) => Err(f)
        case Ok(l) => Ok(m[types[|types| - 1] := l])
  }

  lemma {:induction false} CollectCovers<K>(types: seq<K>, at: nat -> Result<Layout, ParseFailure>)
    requires CollectLayouts(types, at).Ok?
    ensures forall k | 0 <= k < |types| :: types[k] in CollectLayouts(types, at).value
    ensures forall t | t in CollectLayouts(types, at).value :: t in types
    decreases |types|
  {
    if |types| > 0 {
      var init := types[..|types| - 1];
      CollectCovers(init, at);
      assert types == init + [types[|types| - 1]];
      KeysSnoc(init, types[|types| - 1], CollectLayouts(init, at).value, at(|types| - 1).value);
    }
  }

  /** Each type listed gets a layout, and every key is a listed type. */
  lemma ExtractCoversTypes(sections: seq<Section>, types: seq<ZngurDef.RustType>, ptrSize: nat, e: Endianness)
    requires ExtractFromObject(sections, types, ptrSize, e).Ok?
    ensures forall k | 0 <= k < |types| :: types[k] in ExtractFromObject(sections, types, ptrSize, e).value
    ensures forall t | t in ExtractFromObject(sections, types, ptrSize, e).value :: t in types
  {
    CollectCovers(types, (idx: nat) => LayoutAt(sections, idx, ptrSize, e));
  }

  /** Adding one key to a map keyed by exactly the listed values keeps
      it keyed by exactly the listed values. */
  lemma KeysSnoc<K, V>(init: seq<K>, x: K, m: map<K, V>, v: V)
    requires forall k | 0 <= k < |init| :: init[k] in m
    requires forall t | t in m :: t in init
    ensures forall k | 0 <= k < |init + [x]| :: (init + [x])[k] in m[x := v]
    ensures forall t | t in m[x := v] :: t in init + [x]
  {
    forall k | 0 <= k < |init + [x]| ensures (init + [x])[k] in m[x := v] {
      if k < |init| { assert (init + [x])[k] == init[k]; }
    }
  }

  // ---- the crate's name and library ----

  /** `trim_matches(c)`: every leading and trailing `c` removed. */
  function TrimChar(s: string, c: char): (r: string)
    ensures |r| <= |s|
    ensures |r| > 0 ==> r[0] != c && r[|r| - 1] != c
    decreases |s|
  {
    if |s| > 0 && s[0] == c then TrimChar(s[1..], c)
    else if |s| > 0 && s[|s| - 1] == c then TrimChar(s[..|s| - 1], c)
    else s
  }

  /** The name a `name = …` line gives: the text after its first `=`, up
      to any second one, trimmed of spaces and then of quotes. */
  function NameValue(line: string): string
    requires Contains(line, "=")
  {
    var parts := Split(line, "=");
    var v := if |parts| > 1 then parts[1] else "";
    TrimChar(TrimChar(Trim(v), '"'), '\'')
  }

  predicate IsNameLine(line: string) {
    StartsWith(Trim(line), "name") && Contains(Trim(line), "=")
  }

  /** `get_crate_name`: the value of the first `name … = …` line of
      `Cargo.toml`, or `None`. */
  function CrateName(lines: seq<string>): (r: Option<string>)
    ensures r.None? <==> forall k | 0 <= k < |lines| :: !IsNameLine(lines[k])
    ensures r.Some? ==> exists k | 0 <= k < |lines| ::
              IsNameLine(lines[k]) && r.value == NameValue(Trim(lines[k])) && forall k' | 0 <= k' < k :: !IsNameLine(lines[k'])
  {
    match SeqUtil.FindFirst(lines, IsNameLine)
    case None => None
    case Some(k) => Some(NameValue(Trim(lines[k])))
  }

  /** `replace('-', "_")`. */
  function LibName(crate: string): (r: string)
    ensures |r| == |crate| && forall k | 0 <= k < |r| :: r[k] == (if crate[k] == '-' then '_' else crate[k])
  {
    MapChars(crate, c => if c == '-' then '_' else c)
  }

  /** The test on a file name in `deps`, as written. */
  predicate LibFileMatches(fileName: string, crate: string) {
    StartsWith(fileName, "lib" + LibName(crate)) && (EndsWith(fileName, ".rlib") || EndsWith(fileName, ".rmeta"))
  }

  /** The test with the name required to end at `-` or at the extension. */
  predicate LibFileMatchesExactly(fileName: string, crate: string) {
    (StartsWith(fileName, "lib" + LibName(crate) + "-") && (EndsWith(fileName, ".rlib") || EndsWith(fileName, ".rmeta")))
    || fileName == "lib" + LibName(crate) + ".rlib" || fileName == "lib" + LibName(crate) + ".rmeta"
  }

  /** The files cargo writes for the crate pass both tests. */
  lemma OwnLibFound(crate: string, hash: string)
    ensures LibFileMatches("lib" + LibName(crate) + "-" + hash + ".rlib", crate)
    ensures LibFileMatchesExactly("lib" + LibName(crate) + "-" + hash + ".rlib", crate)
  {
    var p := "lib" + LibName(crate);
    assert p + "-" + hash + ".rlib" == p + ("-" + hash + ".rlib");
    assert p + "-" + hash + ".rlib" == (p + "-") + (hash + ".rlib");
    assert p + "-" + hash + ".rlib" == (p + "-" + hash) + ".rlib";
  }

  /** As written, the library of crate `foo_bar` is taken for crate `foo`. */
  lemma OtherCrateLibMatches()
    ensures LibFileMatches("libfoo_bar-1.rlib", "foo")
    ensures !LibFileMatchesExactly("libfoo_bar-1.rlib", "foo")
  {
    assert LibName("foo") == "foo";
    var f := "libfoo_bar-1.rlib";
    assert f[..6] == "libfoo";
    assert f[|f| - 5..] == ".rlib";
    assert f[..7] != "libfoo-" by { assert f[6] == '_'; }
  }

  /** With the corrected test, a file belongs to one library name only. */
  lemma ExactLibIsOwnCrate(fileName: string, a: string, b: string)
    requires LibFileMatchesExactly(fileName, a) && LibFileMatchesExactly(fileName, b)
    requires forall k | 0 <= k < |a| :: a[k] != '.'
    requires forall k | 0 <= k < |b| :: b[k] != '.'
    ensures LibName(a) == LibName(b)
  {
    var la, lb := LibName(a), LibName(b);
    assert forall k | 0 <= k < |la| :: la[k] != '-' && la[k] != '.';
    assert forall k | 0 <= k < |lb| :: lb[k] != '-' && lb[k] != '.';
    var pa, pb := "lib" + la, "lib" + lb;
    assert forall k | 3 <= k < |pa| :: pa[k] == la[k - 3];
    assert forall k | 3 <= k < |pb| :: pb[k] == lb[k - 3];
    // Both names are followed in the file by `-` or `.`, which neither contains.
    assert |fileName| > |pa| && (fileName[|pa|] == '-' || fileName[|pa|] == '.') && fileName[..|pa|] == pa by {
      FollowedBy(fileName, pa, la);
    }
    assert |fileName| > |pb| && (fileName[|pb|] == '-' || fileName[|pb|] == '.') && fileName[..|pb|] == pb by {
      FollowedBy(fileName, pb, lb);
    }
    if |pa| < |pb| {
      assert false;
    } else if |pb| < |pa| {
      assert false;
    } else {
      assert la == pa[3..] && lb == pb[3..];
    }
  }

  lemma FollowedBy(fileName: string, p: string, l: string)
    requires p == "lib" + l
    requires (StartsWith(fileName, p + "-") && (EndsWith(fileName, ".rlib") || EndsWith(fileName, ".rmeta")))
             || fileName == p + ".rlib" || fileName == p + ".rmeta"
    ensures |fileName| > |p| && (fileName[|p|] == '-' || fileName[|p|] == '.') && fileName[..|p|] == p
  {
    if StartsWith(fileName, p + "-") {
      assert fileName[..|p| + 1] == p + "-";
      assert fileName[..|p|] == (p + "-")[..|p|];
    } else if fileName == p + ".rlib" {
      assert fileName[|p|] == '.';
    } else {
      assert fileName[|p|] == '.';
    }
  }
}
