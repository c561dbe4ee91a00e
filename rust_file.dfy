/**
 * The Rust side of the generated glue (`RustFile` in
 * zngur-generator/src/rust.rs): a buffer the generator appends exported
 * `extern "C"` functions to, the link names those functions get, the short
 * signature hash that tells overloads apart, and the panic-to-exception
 * switch that decides whether a function body runs under `catch_unwind`.
 *
 * The buffer is modelled by what it declares, one entry per emitted item,
 * rather than by its characters.
 */
module RustEmit {
  import opened Wrappers
  import opened StrUtil
  import opened ZngurDef
  import C = CppTypes
  import opened RustGen
  import opened IntoCpp
  import SeqUtil

  // ---- hash_of_sig ----

  type Byte = b: int | 0 <= b < 256

  /** A SHA-256 digest: 32 bytes. The hash function itself is a parameter. */
  type Digest = d: seq<Byte> | |d| == 32 witness seq(32, i => 0)

  /** One lower-case hexadecimal digit, as `hex::encode` writes it. */
  function HexDigit(d: nat): (c: char)
    requires d < 16
    ensures IsLowerHex(c)
  {
    if d < 10 then ('0' as int + d) as char else ('a' as int + d - 10) as char
  }

  predicate IsLowerHex(c: char) { '0' <= c <= '9' || 'a' <= c <= 'f' }

  function HexValue(c: char): (d: nat)
    requires IsLowerHex(c)
    ensures d < 16
  {
    if c <= '9' then (c as int - '0' as int) as nat else (c as int - 'a' as int + 10) as nat
  }

  /** `hex::encode`: two digits per byte, high nibble first. */
  function Hex(bs: seq<Byte>): (r: string)
    ensures |r| == 2 * |bs|
    ensures forall i | 0 <= i < |r| :: IsLowerHex(r[i])
  {
    if |bs| == 0 then "" else [HexDigit(bs[0] / 16), HexDigit(bs[0] % 16)] + Hex(bs[1..])
  }

  /** Reading hexadecimal digits back, two per byte. */
  function Unhex(s: string): (bs: seq<Byte>)
    requires |s| % 2 == 0 && forall i | 0 <= i < |s| :: IsLowerHex(s[i])
    ensures |bs| == |s| / 2
  {
    if |s| == 0 then [] else [HexValue(s[0]) * 16 + HexValue(s[1])] + Unhex(s[2..])
  }

  lemma {:induction false} UnhexHex(bs: seq<Byte>)
    ensures Unhex(Hex(bs)) == bs
  {
    if |bs| > 0 {
      UnhexHex(bs[1..]);
      var h := Hex(bs);
      assert h[2..] == Hex(bs[1..]);
    }
  }

  /** The text that is hashed: every type's `Display` followed by `+`. */
  function SigText(sig: seq<RustType>): string
  {
    if |sig| == 0 then "" else SigText(sig[..|sig| - 1]) + TypeToString(sig[|sig| - 1]) + "+"
  }

  /** The signature hash: the first five digest bytes in hexadecimal. */
  function SigHash(sig: seq<RustType>, sha256: string -> Digest): string {
    Hex(sha256(SigText(sig))[..5])
  }

  /** `hash_of_sig`: ten lower-case hexadecimal digits that decode to the
      first five bytes of the digest of the signature text. */
  method HashOfSig(sig: seq<RustType>, sha256: string -> Digest) returns (h: string)
    ensures h == SigHash(sig, sha256)
    ensures |h| == 10 && forall i | 0 <= i < |h| :: IsLowerHex(h[i])
    ensures Unhex(h) == sha256(SigText(sig))[..5]
  {
    var text := "";
    for i := 0 to |sig|
      invariant text == SigText(sig[..i])
    {
      assert sig[..i + 1][..i] == sig[..i];
      text := text + TypeToString(sig[i]) + "+";
    }
    assert sig[..|sig|] == sig;
    h := Hex(sha256(text)[..5]);
    UnhexHex(sha256(text)[..5]);
  }

  /** The hashed text of a longer signature extends that of its prefix, so
      it is the concatenation of the per-type pieces. */
  lemma {:induction false} SigTextAppend(a: seq<RustType>, b: seq<RustType>)
    ensures SigText(a + b) == SigText(a) + SigText(b)
    decreases |b|
  {
    if |b| > 0 {
      var b' := b[..|b| - 1];
      assert (a + b)[..|a + b| - 1] == a + b';
      SigTextAppend(a, b');
    } else {
      assert a + b == a;
    }
  }

  // ---- link names ----

  /** The return type the wrapper writes: `impl Trait` is boxed as `Box<dyn Trait>`. */
  function ReturnedType(output: RustType): (r: RustType)
    ensures !r.Impl?
    ensures output.Impl? ==> r == Boxed(Dyn(output.tr, output.bounds))
    ensures !output.Impl? ==> r == output
  {
    if output.Impl? then Boxed(Dyn(output.tr, output.bounds)) else output
  }

  /** `add_function`'s link name: the mangled Rust name, `_`, the hash of the
      input types, and `_deref` when the call goes through a deref. */
  function FunctionLinkName(rustName: string, base: string, inputs: seq<RustType>, deref: bool, sha256: string -> Digest): string {
    MangleName(rustName, base) + "_" + SigHash(inputs, sha256) + (if deref then "_deref" else "")
  }

  /** The link name is the mangled name, then `_` and exactly ten hex
      digits, then `_deref` iff the call dereferences its receiver, so two
      overloads whose input types print differently are told apart by their
      hash and a deref wrapper never shares a name with the direct one. */
  lemma FunctionLinkNameShape(rustName: string, base: string, inputs: seq<RustType>, deref: bool, sha256: string -> Digest)
    ensures var n := FunctionLinkName(rustName, base, inputs, deref, sha256);
            var m := MangleName(rustName, base);
            StartsWith(n, m + "_") &&
            |n| == |m| + 11 + (if deref then 6 else 0) &&
            n[|m| + 1..|m| + 11] == SigHash(inputs, sha256) &&
            (deref <==> EndsWith(n, "_deref"))
  {
    var m := MangleName(rustName, base);
    var h := SigHash(inputs, sha256);
    var n := FunctionLinkName(rustName, base, inputs, deref, sha256);
    assert n == m + "_" + h + (if deref then "_deref" else "");
    assert (m + "_" + h + (if deref then "_deref" else ""))[..|m| + 1] == m + "_";
    assert n[|m| + 1..|m| + 11] == h;
    if !deref {
      assert n[|n| - 6..] == h[4..];
      assert h[4] != '_';
    }
  }

  /** The constructor and its variant test (`ConstructorMangledNames`). */
  datatype ConstructorNames = ConstructorNames(ctorName: string, matchCheck: string)

  /** The names of the three heap shims a heap-allocated type gets. */
  datatype CppLayoutPolicy =
    | CppStackAllocated(size: nat, align: nat)
    | CppHeapAllocated(sizeFn: string, allocFn: string, freeFn: string)
    | CppOnlyByRef

  /** A trait that C++ can implement: its C++ type, each method with the
      C++ function Rust calls for it, and the owned and borrowed builders. */
  datatype TraitDefinition = TraitDefinition(asTy: C.CppType, methods: seq<TraitMethodLink>, linkName: string, linkNameRef: string)

  datatype TraitMethodLink = TraitMethodLink(zmethod: ZngurMethod, linkName: string)

  /** The name of the C++ function behind one trait method: the mangled
      trait, the method name, and the hashes of its generics and inputs. */
  function TraitMethodLinkName(tr: RustTrait, m: ZngurMethod, base: string, sha256: string -> Digest): string {
    MangleName(TraitToString(tr), base) + "_" + m.name + "_" + SigHash(m.generics, sha256) + "_" + SigHash(m.inputs, sha256)
  }

  function TraitMethodLinkNames(tr: ZngurTrait, base: string, sha256: string -> Digest): (r: seq<string>)
    ensures |r| == |tr.methods|
  {
    seq(|tr.methods|, k requires 0 <= k < |tr.methods| => TraitMethodLinkName(tr.tr, tr.methods[k], base, sha256))
  }

  /** The name `add_extern_cpp_impl` imports a C++ method under. */
  function ExternMethodName(owner: RustType, m: ZngurMethod, base: string): string {
    MangleName(TypeToString(owner) + "_extern_method_" + m.name, base)
  }

  /** The imported names of `add_extern_cpp_impl`, one per method. */
  function ExternMethodNames(owner: RustType, ms: seq<ZngurMethod>, base: string): (r: seq<string>)
    ensures |r| == |ms|
    ensures forall k :: 0 <= k < |ms| ==> r[k] == ExternMethodName(owner, ms[k], base)
  {
    seq(|ms|, k requires 0 <= k < |ms| => ExternMethodName(owner, ms[k], base))
  }

  datatype PanicToExceptionSymbols = PanicToExceptionSymbols(detectPanic: string, takePanic: string)

  /** What the generated Rust file declares, in order. */
  datatype Emitted =
    | Export(linkName: string, catchesUnwind: bool)
    | Import(linkName: string)
    | PanicCell(detect: string, take: string)
    | SizeAssert(ty: RustType, size: nat)
    | AlignAssert(ty: RustType, align: nat)
    | CopyAssert(ty: RustType)
    | OffsetAssert(owner: RustType, field: string, fieldTy: RustType, offset: nat)

  /** Whether the panic cell has been declared among `items`. */
  predicate CellDeclared(items: seq<Emitted>)
    decreases |items|
  {
    |items| > 0 && (items[|items| - 1].PanicCell? || CellDeclared(items[..|items| - 1]))
  }

  lemma CellDeclaredAppend(items: seq<Emitted>, e: Emitted)
    ensures CellDeclared(items + [e]) == (e.PanicCell? || CellDeclared(items))
  {
    assert (items + [e])[..|items|] == items;
  }

  /** Functions exported without a `catch_unwind` wrapper, in order. */
  function Exports(names: seq<string>): (r: seq<Emitted>)
    ensures |r| == |names| && forall k | 0 <= k < |names| :: r[k] == Export(names[k], false)
  {
    if |names| == 0 then [] else [Export(names[0], false)] + Exports(names[1..])
  }

  /** Imported C++ functions, in order. */
  function Imports(names: seq<string>): (r: seq<Emitted>)
    ensures |r| == |names| && forall k | 0 <= k < |names| :: r[k] == Import(names[k])
  {
    if |names| == 0 then [] else Imports(names[..|names| - 1]) + [Import(names[|names| - 1])]
  }

  /** Every export is named `_zngur_…`, and only a function written after
      the panic cell runs under `catch_unwind` (the wrapper writes into that
      cell). Checked one item at a time from the end. */
  predicate ExportsOk(items: seq<Emitted>)
    decreases |items|
  {
    |items| == 0 ||
    (var last := items[|items| - 1];
     var before := items[..|items| - 1];
     ExportsOk(before) &&
     (last.Export? ==> StartsWith(last.linkName, "_zngur_") && (last.catchesUnwind ==> CellDeclared(before))))
  }

  lemma ImportsAppend(names: seq<string>, n: string)
    ensures Imports(names + [n]) == Imports(names) + [Import(n)]
  {
    assert (names + [n])[..|names|] == names;
  }

  /** The three exports of a heap-allocated layout keep a file well formed. */
  lemma ThreeExportsKeepWellFormed(items: seq<Emitted>, p: bool, a: string, b: string, c: string)
    requires WellFormed(items, p)
    requires StartsWith(a, "_zngur_") && StartsWith(b, "_zngur_") && StartsWith(c, "_zngur_")
    ensures WellFormed(items + Exports([a, b, c]), p)
  {
    var names := [a, b, c];
    assert forall k | 0 <= k < |names| :: StartsWith(names[k], "_zngur_");
    ExportsKeepWellFormed(items, p, names);
  }

  /** An owned builder export and its `_borrowed` twin keep a file well formed. */
  lemma BuilderExportsKeepWellFormed(items: seq<Emitted>, p: bool, owned: string)
    requires WellFormed(items, p) && StartsWith(owned, "_zngur_")
    ensures WellFormed(items + Exports([owned, owned + "_borrowed"]), p)
  {
    var names := [owned, owned + "_borrowed"];
    assert names[1][..7] == owned[..7];
    ExportsKeepWellFormed(items, p, names);
  }

  /** The glue exports are well named and wrapped only after the cell, and
      the switch is on exactly when the panic cell has been declared. */
  predicate WellFormed(items: seq<Emitted>, panicToException: bool) {
    panicToException == CellDeclared(items) && ExportsOk(items)
  }

  /** `WellFormed` read as a statement about every export. */
  lemma {:induction false} WellFormedExports(items: seq<Emitted>, p: bool)
    requires WellFormed(items, p)
    ensures forall i | 0 <= i < |items| && items[i].Export? ::
              StartsWith(items[i].linkName, "_zngur_") && (items[i].catchesUnwind ==> CellDeclared(items[..i]))
  {
    ExportsOkAt(items);
  }

  lemma {:induction false} ExportsOkAt(items: seq<Emitted>)
    requires ExportsOk(items)
    ensures forall i | 0 <= i < |items| && items[i].Export? ::
              StartsWith(items[i].linkName, "_zngur_") && (items[i].catchesUnwind ==> CellDeclared(items[..i]))
    decreases |items|
  {
    if |items| > 0 {
      var before := items[..|items| - 1];
      ExportsOkAt(before);
      forall i | 0 <= i < |before| ensures items[..i] == before[..i] {
      }
    }
  }

  /** Writing one more item keeps a file well formed when it is an export
      named `_zngur_…` wrapped only if the switch is on, or an item that is
      neither an export nor the cell. */
  lemma AppendKeepsWellFormed(items: seq<Emitted>, p: bool, e: Emitted)
    requires WellFormed(items, p) && !e.PanicCell?
    requires e.Export? ==> StartsWith(e.linkName, "_zngur_") && (e.catchesUnwind ==> p)
    ensures WellFormed(items + [e], p)
  {
    CellDeclaredAppend(items, e);
    assert (items + [e])[..|items|] == items;
  }

  /** Declaring the panic cell turns the switch on and keeps the file well formed. */
  lemma PanicCellKeepsWellFormed(items: seq<Emitted>, p: bool, d: string, t: string)
    requires WellFormed(items, p)
    ensures WellFormed(items + [PanicCell(d, t)], true)
  {
    CellDeclaredAppend(items, PanicCell(d, t));
    assert (items + [PanicCell(d, t)])[..|items|] == items;
  }

  /** Exports that are never wrapped keep a well-formed file well formed. */
  lemma {:induction false} ExportsKeepWellFormed(items: seq<Emitted>, p: bool, names: seq<string>)
    requires WellFormed(items, p)
    requires forall k | 0 <= k < |names| :: StartsWith(names[k], "_zngur_")
    ensures WellFormed(items + Exports(names), p)
    decreases |names|
  {
    if |names| > 0 {
      var e := Export(names[0], false);
      AppendKeepsWellFormed(items, p, e);
      ExportsKeepWellFormed(items + [e], p, names[1..]);
      assert Exports(names) == [e] + Exports(names[1..]);
      SeqUtil.AppendAssoc(items, [e], Exports(names[1..]));
    } else {
      SeqUtil.AppendEmpty(items);
    }
  }

  /** The well-known trait data a type gets: `Unsized` and `Copy` carry no
      names, `Drop` names one glue function and `Debug` two. */
  function WellknownData(ty: RustType, tr: ZngurWellknownTrait, base: string): ZngurWellknownTraitData {
    match tr
    case Unsized => UnsizedData
    case Copy => CopyData
    case Drop => DropData(MangleName(TypeToString(ty) + "=drop_in_place", base))
    case Debug => DebugData(MangleName(TypeToString(ty) + "=debug_pretty", base), MangleName(TypeToString(ty) + "=debug_print", base))
  }

  // ---- the file ----

  /** A trait can back a `dyn` object only when no method is static: the
      generator panics with "traits with static methods are not object safe"
      when it writes such a method's `fn` line. */
  predicate ObjectSafe(t: ZngurTrait) {
    forall k | 0 <= k < |t.methods| :: !t.methods[k].receiver.Static?
  }

  class RustFile {
    /** What has been written so far. */
    var items: seq<Emitted>
    var panicToException: bool
    var manglingBase: string

    predicate Valid()
      reads this
    {
      WellFormed(items, panicToException)
    }

    /** `RustFile::new`: the fixed prelude only, panics not converted. */
    constructor (base: string)
      ensures Valid()
      ensures items == [] && !panicToException && manglingBase == base
    {
      items := [];
      panicToException := false;
      manglingBase := base;
    }

    method MangleIn(name: string) returns (r: string)
      ensures r == MangleName(name, manglingBase) && StartsWith(r, "_zngur_")
    {
      r := Mangle(name, manglingBase);
    }

    /** `add_function`: exports a wrapper under `FunctionLinkName`, run under
        `catch_unwind` iff panics are converted, and returns the C++
        signature, with an `impl Trait` output seen as `Box<dyn Trait>`. */
    method AddFunction(rustName: string, inputs: seq<RustType>, output: RustType, deref: Option<Mutability>, sha256: string -> Digest)
      returns (sig: C.CppFnSig)
      requires Valid()
      requires forall i | 0 <= i < |inputs| :: Expressible(inputs[i])
      requires Expressible(ReturnedType(output))
      modifies this
      ensures Valid()
      ensures sig.linkName == FunctionLinkName(rustName, old(manglingBase), inputs, deref.Some?, sha256)
      ensures sig.inputs == TypesIntoCpp(inputs) && sig.output == TypeIntoCpp(ReturnedType(output))
      ensures items == old(items) + [Export(sig.linkName, old(panicToException))]
      ensures panicToException == old(panicToException) && manglingBase == old(manglingBase)
    {
      var mangled := MangleIn(rustName);
      var hash := HashOfSig(inputs, sha256);
      var name := mangled + "_" + hash;
      if deref.Some? {
        name := name + "_deref";
      }
      assert StartsWith(name, "_zngur_") by {
        assert name[..7] == mangled[..7];
      }
      AppendKeepsWellFormed(items, panicToException, Export(name, panicToException));
      items := items + [Export(name, panicToException)];
      sig := C.CppFnSig(name, TypesIntoCpp(inputs), TypeIntoCpp(ReturnedType(output)));
    }

    /** `add_constructor`: the constructor and `constructor + "_check"`. */
    method AddConstructor(rustName: string) returns (names: ConstructorNames)
      requires Valid()
      modifies this
      ensures Valid()
      ensures names.ctorName == MangleName(rustName, manglingBase)
      ensures names.matchCheck == names.ctorName + "_check"
      ensures items == old(items) + Exports([names.ctorName, names.matchCheck])
      ensures panicToException == old(panicToException) && manglingBase == old(manglingBase)
    {
      var ctorName := MangleIn(rustName);
      var check := ctorName + "_check";
      assert check[..7] == ctorName[..7];
      ExportsKeepWellFormed(items, panicToException, [ctorName, check]);
      items := items + Exports([ctorName, check]);
      names := ConstructorNames(ctorName, check);
    }

    /** `add_tuple_constructor`: named after the field types joined by `&`. */
    method AddTupleConstructor(fields: seq<RustType>) returns (name: string)
      requires Valid()
      modifies this
      ensures Valid()
      ensures name == MangleName(Join(TypesToStrings(fields), "&"), manglingBase)
      ensures items == old(items) + Exports([name])
      ensures panicToException == old(panicToException) && manglingBase == old(manglingBase)
    {
      name := MangleIn(Join(TypesToStrings(fields), "&"));
      ExportsKeepWellFormed(items, panicToException, [name]);
      items := items + Exports([name]);
    }

    /** `add_wellknown_trait`: the glue functions behind `Drop` and `Debug`. */
    method AddWellknownTrait(ty: RustType, tr: ZngurWellknownTrait) returns (data: ZngurWellknownTraitData)
      requires Valid()
      modifies this
      ensures Valid()
      ensures data == WellknownData(ty, tr, manglingBase)
      ensures tr.Drop? ==> items == old(items) + Exports([data.dropInPlace])
      ensures tr.Debug? ==> items == old(items) + Exports([data.prettyPrint, data.debugPrint])
      ensures tr.Unsized? || tr.Copy? ==> items == old(items)
      ensures panicToException == old(panicToException) && manglingBase == old(manglingBase)
    {
      match tr
      case Unsized => data := UnsizedData;
      case Copy => data := CopyData;
      case Drop =>
        var d := MangleIn(TypeToString(ty) + "=drop_in_place");
        ExportsKeepWellFormed(items, panicToException, [d]);
        items := items + Exports([d]);
        data := DropData(d);
      case Debug =>
        var pretty := MangleIn(TypeToString(ty) + "=debug_pretty");
        var debug := MangleIn(TypeToString(ty) + "=debug_print");
        ExportsKeepWellFormed(items, panicToException, [pretty, debug]);
        items := items + Exports([pretty, debug]);
        data := DebugData(pretty, debug);
    }

    /** `enable_panic_to_exception`: declares the panic cell with its two
        accessors and turns the switch on for every later wrapper. */
    method EnablePanicToException() returns (symbols: PanicToExceptionSymbols)
      requires Valid()
      modifies this
      ensures Valid() && panicToException
      ensures symbols.detectPanic == MangleName("@detect_panic", manglingBase)
      ensures symbols.takePanic == MangleName("@take_panic", manglingBase)
      ensures items == old(items) + [PanicCell(symbols.detectPanic, symbols.takePanic)]
      ensures manglingBase == old(manglingBase)
    {
      var detect := MangleIn("@detect_panic");
      var take := MangleIn("@take_panic");
      symbols := PanicToExceptionSymbols(detect, take);
      DeclarePanicCell(symbols);
    }

    /** Writes the panic cell and turns the switch on. */
    method DeclarePanicCell(symbols: PanicToExceptionSymbols)
      requires Valid()
      modifies this
      ensures Valid() && panicToException
      ensures items == old(items) + [PanicCell(symbols.detectPanic, symbols.takePanic)]
      ensures manglingBase == old(manglingBase)
    {
      PanicCellKeepsWellFormed(items, panicToException, symbols.detectPanic, symbols.takePanic);
      items := items + [PanicCell(symbols.detectPanic, symbols.takePanic)];
      panicToException := true;
    }

    /** `add_layout_policy_shim`: a stack layout is passed on, a heap layout
        gets size, alloc and free shims. The source has no case for a
        conservative layout. */
    method AddLayoutPolicyShim(ty: RustType, layout: LayoutPolicy) returns (cpp: CppLayoutPolicy)
      requires Valid() && !layout.Conservative?
      modifies this
      ensures Valid()
      ensures layout.StackAllocated? ==> cpp == CppStackAllocated(layout.size, layout.align) && items == old(items)
      ensures layout.OnlyByRef? ==> cpp == CppOnlyByRef && items == old(items)
      ensures layout.HeapAllocated? ==>
                cpp == CppHeapAllocated(MangleName(TypeToString(ty) + "_size_fn", manglingBase),
                                        MangleName(TypeToString(ty) + "_alloc_fn", manglingBase),
                                        MangleName(TypeToString(ty) + "_free_fn", manglingBase)) &&
                items == old(items) + Exports([cpp.sizeFn, cpp.allocFn, cpp.freeFn])
      ensures panicToException == old(panicToException) && manglingBase == old(manglingBase)
    {
      match layout
      case StackAllocated(size, align) => cpp := CppStackAllocated(size, align);
      case OnlyByRef => cpp := CppOnlyByRef;
      case HeapAllocated =>
        var sizeFn := MangleIn(TypeToString(ty) + "_size_fn");
        var allocFn := MangleIn(TypeToString(ty) + "_alloc_fn");
        var freeFn := MangleIn(TypeToString(ty) + "_free_fn");
        ThreeExportsKeepWellFormed(items, panicToException, sizeFn, allocFn, freeFn);
        items := items + Exports([sizeFn, allocFn, freeFn]);
        cpp := CppHeapAllocated(sizeFn, allocFn, freeFn);
    }

    /** `add_cpp_value_bridge`: the accessor of a type's C++ value field. */
    method AddCppValueBridge(ty: RustType, field: string) returns (name: string)
      requires Valid()
      modifies this
      ensures Valid()
      ensures name == MangleName(TypeToString(ty) + "_cpp_value_" + field, manglingBase)
      ensures items == old(items) + Exports([name])
      ensures panicToException == old(panicToException) && manglingBase == old(manglingBase)
    {
      name := MangleIn(TypeToString(ty) + "_cpp_value_" + field);
      ExportsKeepWellFormed(items, panicToException, [name]);
      items := items + Exports([name]);
    }

    /** `add_extern_cpp_function`: a C++ function Rust calls, declared, not exported. */
    method AddExternCppFunction(rustName: string) returns (name: string)
      requires Valid()
      modifies this
      ensures Valid()
      ensures name == MangleName(rustName, manglingBase)
      ensures items == old(items) + [Import(name)]
      ensures panicToException == old(panicToException) && manglingBase == old(manglingBase)
    {
      name := MangleIn(rustName);
      AppendKeepsWellFormed(items, panicToException, Import(name));
      items := items + [Import(name)];
    }

    /** `add_extern_cpp_impl`: one imported C++ function per method, named
        after the owner type and the method, in method order. */
    method AddExternCppImpl(owner: RustType, methods: seq<ZngurMethod>) returns (names: seq<string>)
      requires Valid()
      modifies this
      ensures Valid()
      ensures names == ExternMethodNames(owner, methods, manglingBase)
      ensures items == old(items) + Imports(names)
      ensures panicToException == old(panicToException) && manglingBase == old(manglingBase)
    {
      names := [];
      ghost var start := items;
      ghost var want := ExternMethodNames(owner, methods, manglingBase);
      for i := 0 to |methods|
        invariant Valid()
        invariant panicToException == old(panicToException) && manglingBase == old(manglingBase)
        invariant names == want[..i]
        invariant items == start + Imports(names)
      {
        var mn := ImportExternMethod(owner, methods[i]);
        assert mn == want[i];
        ImportsAppend(names, mn);
        SeqUtil.AppendAssoc(start, Imports(names), [Import(mn)]);
        SeqUtil.PrefixSnoc(want, i);
        names := names + [mn];
      }
      assert want[..|methods|] == want;
    }

    /** Imports the C++ function behind one method of an `extern_cpp_impl` block. */
    method ImportExternMethod(owner: RustType, m: ZngurMethod) returns (name: string)
      requires Valid()
      modifies this
      ensures Valid()
      ensures name == ExternMethodName(owner, m, manglingBase)
      ensures items == old(items) + [Import(name)]
      ensures panicToException == old(panicToException) && manglingBase == old(manglingBase)
    {
      name := MangleIn(TypeToString(owner) + "_extern_method_" + m.name);
      AppendKeepsWellFormed(items, panicToException, Import(name));
      items := items + [Import(name)];
    }

    /** The `extern "C"` block of `add_builder_for_dyn_trait`: one C++
        function per trait method, in method order. */
    method DeclareTraitMethods(tr: ZngurTrait, sha256: string -> Digest) returns (names: seq<string>)
      requires Valid()
      modifies this
      ensures Valid()
      ensures names == TraitMethodLinkNames(tr, manglingBase, sha256)
      ensures items == old(items) + Imports(names)
      ensures panicToException == old(panicToException) && manglingBase == old(manglingBase)
    {
      names := [];
      ghost var start := items;
      for i := 0 to |tr.methods|
        invariant Valid()
        invariant panicToException == old(panicToException) && manglingBase == old(manglingBase)
        invariant names == TraitMethodLinkNames(tr, manglingBase, sha256)[..i]
        invariant items == start + Imports(names)
      {
        var name := DeclareTraitMethod(tr.tr, tr.methods[i], sha256);
        ImportsAppend(names, name);
        SeqUtil.AppendAssoc(start, Imports(names), [Import(name)]);
        SeqUtil.PrefixSnoc(TraitMethodLinkNames(tr, manglingBase, sha256), i);
        names := names + [name];
      }
    }

    /** Declares the C++ function behind one trait method. */
    method DeclareTraitMethod(tr: RustTrait, m: ZngurMethod, sha256: string -> Digest) returns (name: string)
      requires Valid()
      modifies this
      ensures Valid()
      ensures name == TraitMethodLinkName(tr, m, manglingBase, sha256)
      ensures items == old(items) + [Import(name)]
      ensures panicToException == old(panicToException) && manglingBase == old(manglingBase)
    {
      var traitName := MangleIn(TraitToString(tr));
      var generics := HashOfSig(m.generics, sha256);
      var inputs := HashOfSig(m.inputs, sha256);
      name := traitName + "_" + m.name + "_" + generics + "_" + inputs;
      AppendKeepsWellFormed(items, panicToException, Import(name));
      items := items + [Import(name)];
    }

    /** `add_builder_for_dyn_trait`: declares the C++ function behind each
        method, then exports the owned builder under the mangled trait name
        and the borrowed one under that name + `_borrowed`. */
    method AddBuilderForDynTrait(tr: ZngurTrait, sha256: string -> Digest) returns (def: TraitDefinition)
      requires Valid()
      requires tr.tr.Normal? && TraitExpressible(tr.tr) && ObjectSafe(tr)
      modifies this
      ensures Valid()
      ensures def.asTy == TraitIntoCpp(tr.tr)
      ensures |def.methods| == |tr.methods|
      ensures forall k | 0 <= k < |tr.methods| ::
                def.methods[k] == TraitMethodLink(tr.methods[k], TraitMethodLinkName(tr.tr, tr.methods[k], manglingBase, sha256))
      ensures def.linkName == MangleName(TraitToString(tr.tr), manglingBase)
      ensures def.linkNameRef == def.linkName + "_borrowed"
      ensures items == old(items) + Imports(TraitMethodLinkNames(tr, manglingBase, sha256)) + Exports([def.linkName, def.linkNameRef])
      ensures panicToException == old(panicToException) && manglingBase == old(manglingBase)
    {
      var names := DeclareTraitMethods(tr, sha256);
      var owned, borrowed := ExportTraitBuilders(tr.tr);
      def := TraitDefinition(TraitIntoCpp(tr.tr), seq(|names|, k requires 0 <= k < |names| => TraitMethodLink(tr.methods[k], names[k])), owned, borrowed);
    }

    /** The owned and borrowed builders of a trait object, exported under
        the mangled trait name. */
    method ExportTraitBuilders(tr: RustTrait) returns (owned: string, borrowed: string)
      requires Valid()
      modifies this
      ensures Valid()
      ensures owned == MangleName(TraitToString(tr), manglingBase) && borrowed == owned + "_borrowed"
      ensures items == old(items) + Exports([owned, borrowed])
      ensures panicToException == old(panicToException) && manglingBase == old(manglingBase)
    {
      owned := MangleIn(TraitToString(tr));
      borrowed := owned + "_borrowed";
      BuilderExportsKeepWellFormed(items, panicToException, owned);
      items := items + Exports([owned, borrowed]);
    }

    /** `add_builder_for_dyn_fn`: a closure builder named after the input
        and output types joined by `, `. */
    method AddBuilderForDynFn(inputs: seq<RustType>, output: RustType) returns (name: string)
      requires Valid()
      modifies this
      ensures Valid()
      ensures name == MangleName(Join(TypesToStrings(inputs + [output]), ", "), manglingBase)
      ensures items == old(items) + Exports([name])
      ensures panicToException == old(panicToException) && manglingBase == old(manglingBase)
    {
      name := MangleIn(Join(TypesToStrings(inputs + [output]), ", "));
      ExportsKeepWellFormed(items, panicToException, [name]);
      items := items + Exports([name]);
    }

    /** `add_static_size_assert` and `add_static_align_assert`. */
    method AddStaticLayoutAsserts(ty: RustType, size: nat, align: nat)
      requires Valid()
      modifies this
      ensures Valid()
      ensures items == old(items) + [SizeAssert(ty, size), AlignAssert(ty, align)]
      ensures panicToException == old(panicToException) && manglingBase == old(manglingBase)
    {
      AppendKeepsWellFormed(items, panicToException, SizeAssert(ty, size));
      AppendKeepsWellFormed(items + [SizeAssert(ty, size)], panicToException, AlignAssert(ty, align));
      assert items + [SizeAssert(ty, size)] + [AlignAssert(ty, align)] == items + [SizeAssert(ty, size), AlignAssert(ty, align)];
      items := items + [SizeAssert(ty, size), AlignAssert(ty, align)];
    }

    /** `add_field_assertions`: a compile-time check that the field has the
        declared type and sits at the declared offset. */
    method AddFieldAssertions(field: ZngurField, owner: RustType)
      requires Valid() && field.offset.Some?
      modifies this
      ensures Valid()
      ensures items == old(items) + [OffsetAssert(owner, field.name, field.ty, field.offset.value)]
      ensures panicToException == old(panicToException) && manglingBase == old(manglingBase)
    {
      AppendKeepsWellFormed(items, panicToException, OffsetAssert(owner, field.name, field.ty, field.offset.value));
      items := items + [OffsetAssert(owner, field.name, field.ty, field.offset.value)];
    }

    /** `add_static_is_copy_assert`. */
    method AddStaticIsCopyAssert(ty: RustType)
      requires Valid()
      modifies this
      ensures Valid()
      ensures items == old(items) + [CopyAssert(ty)]
      ensures panicToException == old(panicToException) && manglingBase == old(manglingBase)
    {
      AppendKeepsWellFormed(items, panicToException, CopyAssert(ty));
      items := items + [CopyAssert(ty)];
    }
  }
}
