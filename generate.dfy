/**
 * `ZngurGenerator::render` as a whole (zngur-generator/src/lib.rs): the unit
 * type is added to the specification, every trait C++ may implement gets its
 * builders, panics are switched to exceptions when asked for, and then every
 * type, Rust function, C++ function and C++ impl is written, in that order.
 *
 * Each loop is a method over the `RustFile` class proved against a function
 * that says what the loop produces; `RenderedCpp` and `RenderedItems` put
 * those functions together, and the lemmas after them state what the header
 * gets: one definition per type with the unit type last, one definition per
 * function, and each closure trait registered once.
 */
module Generator {
  import opened Wrappers
  import opened SeqUtil
  import opened ZngurDef
  import C = CppTypes
  import opened RustGen
  import opened IntoCpp
  import opened RustEmit
  import opened GenRender

  // ---- traits ----

  /** `add_builder_for_dyn_trait` asserts the trait is a normal one and
      panics on a static method. */
  predicate TraitRenderable(t: ZngurTrait) {
    t.tr.Normal? && TraitExpressible(t.tr) && ObjectSafe(t)
  }

  predicate TraitsRenderable(es: seq<Entry<RustTrait, ZngurTrait>>) {
    forall k | 0 <= k < |es| :: TraitRenderable(es[k].value)
  }

  function TraitMethodLinks(t: ZngurTrait, base: string, sha256: string -> Digest): (r: seq<TraitMethodLink>)
    ensures |r| == |t.methods|
  {
    seq(|t.methods|, k requires 0 <= k < |t.methods| => TraitMethodLink(t.methods[k], TraitMethodLinkName(t.tr, t.methods[k], base, sha256)))
  }

  function TraitDefOf(t: ZngurTrait, base: string, sha256: string -> Digest): TraitDefinition
    requires TraitRenderable(t)
  {
    var link := MangleName(TraitToString(t.tr), base);
    TraitDefinition(TraitIntoCpp(t.tr), TraitMethodLinks(t, base, sha256), link, link + "_borrowed")
  }

  /** The C++ functions a trait's builders call, then the two builders. */
  function TraitItems(t: ZngurTrait, base: string, sha256: string -> Digest): seq<Emitted> {
    var link := MangleName(TraitToString(t.tr), base);
    Imports(TraitMethodLinkNames(t, base, sha256)) + Exports([link, link + "_borrowed"])
  }

  /** The trait table the header starts from: every trait under its key. */
  function TraitDefs(es: seq<Entry<RustTrait, ZngurTrait>>, base: string, sha256: string -> Digest): (r: seq<Entry<RustTrait, CppTraitDef>>)
    requires TraitsRenderable(es)
    ensures |r| == |es|
  {
    if |es| == 0 then []
    else
      var e := es[|es| - 1];
      TraitDefs(es[..|es| - 1], base, sha256) + [Entry(e.key, NormalTrait(TraitDefOf(e.value, base, sha256)))]
  }

  function TraitsItems(es: seq<Entry<RustTrait, ZngurTrait>>, base: string, sha256: string -> Digest): seq<Emitted> {
    if |es| == 0 then [] else TraitsItems(es[..|es| - 1], base, sha256) + TraitItems(es[|es| - 1].value, base, sha256)
  }

  // ---- types ----

  predicate TypesRenderable(tds: seq<ZngurType>) {
    forall k | 0 <= k < |tds| :: TypeRenderable(tds[k])
  }

  /** What the type loop has produced: the definitions, the trait table
      (with the closure traits it added) and the Rust declarations. */
  datatype TypesOut = TypesOut(defs: seq<TypeDefinition>, traitDefs: seq<Entry<RustTrait, CppTraitDef>>, items: seq<Emitted>)

  function TypesRendered(tds: seq<ZngurType>, base: string, sha256: string -> Digest, p: bool,
                         traitDefs: seq<Entry<RustTrait, CppTraitDef>>): (r: TypesOut)
    requires TypesRenderable(tds)
    ensures |r.defs| == |tds|
  {
    if |tds| == 0 then TypesOut([], traitDefs, [])
    else
      var r := TypesRendered(tds[..|tds| - 1], base, sha256, p, traitDefs);
      var td := tds[|tds| - 1];
      var known := Keys(r.traitDefs);
      TypesOut(r.defs + [TypeDefOf(td, base, sha256)],
               r.traitDefs + NewTraitDefs(td.ty, known, base),
               r.items + TypeItems(td, base, sha256, p, known))
  }

  // ---- functions ----

  predicate FnRenderable(f: ZngurFn) {
    InputsExpressible(f.inputs) && Expressible(ReturnedType(f.output))
  }

  predicate FnsRenderable(fs: seq<ZngurFn>) {
    forall k | 0 <= k < |fs| :: FnRenderable(fs[k])
  }

  /** A Rust function: exported under its path, declared in C++ in the
      `rust` namespace under the same path. */
  function FnDefOf(f: ZngurFn, base: string, sha256: string -> Digest): FnDefinition
    requires FnRenderable(f)
  {
    FnDefinition(C.FromRustPath(f.path.path),
                 C.CppFnSig(FunctionLinkName(PathToString(f.path), base, f.inputs, false, sha256),
                            TypesIntoCpp(f.inputs), TypeIntoCpp(ReturnedType(f.output))))
  }

  function FnDefs(fs: seq<ZngurFn>, base: string, sha256: string -> Digest): (r: seq<FnDefinition>)
    requires FnsRenderable(fs)
    ensures |r| == |fs|
  {
    if |fs| == 0 then [] else FnDefs(fs[..|fs| - 1], base, sha256) + [FnDefOf(fs[|fs| - 1], base, sha256)]
  }

  function FnItems(defs: seq<FnDefinition>, p: bool): seq<Emitted> {
    if |defs| == 0 then [] else FnItems(defs[..|defs| - 1], p) + [Export(defs[|defs| - 1].sig.linkName, p)]
  }

  // ---- C++ functions and impls Rust calls ----

  predicate ExternFnRenderable(f: ZngurExternCppFn) {
    InputsExpressible(f.inputs) && Expressible(f.output)
  }

  predicate ExternFnsRenderable(fs: seq<ZngurExternCppFn>) {
    forall k | 0 <= k < |fs| :: ExternFnRenderable(fs[k])
  }

  function ExternFnDefOf(f: ZngurExternCppFn, base: string): ExportedFnDefinition
    requires ExternFnRenderable(f)
  {
    ExportedFnDefinition(f.name, C.CppFnSig(MangleName(f.name, base), TypesIntoCpp(f.inputs), TypeIntoCpp(f.output)))
  }

  function ExternFnDefs(fs: seq<ZngurExternCppFn>, base: string): (r: seq<ExportedFnDefinition>)
    requires ExternFnsRenderable(fs)
    ensures |r| == |fs|
  {
    if |fs| == 0 then [] else ExternFnDefs(fs[..|fs| - 1], base) + [ExternFnDefOf(fs[|fs| - 1], base)]
  }

  function ExternFnItems(defs: seq<ExportedFnDefinition>): seq<Emitted> {
    if |defs| == 0 then [] else ExternFnItems(defs[..|defs| - 1]) + [Import(defs[|defs| - 1].sig.linkName)]
  }

  predicate ExternImplRenderable(b: ZngurExternCppImpl) {
    Expressible(b.ty) && (b.tr.Some? ==> TraitExpressible(b.tr.value)) &&
    forall k | 0 <= k < |b.methods| :: InputsExpressible(b.methods[k].inputs) && Expressible(b.methods[k].output)
  }

  predicate ExternImplsRenderable(bs: seq<ZngurExternCppImpl>) {
    forall k | 0 <= k < |bs| :: ExternImplRenderable(bs[k])
  }

  /** A method of a C++ impl: the receiver joins the inputs, as for a Rust
      method, and the output is the declared one. */
  function ExternMethodOf(owner: RustType, m: ZngurMethod, link: string): ExportedMethod
    requires Expressible(owner) && InputsExpressible(m.inputs) && Expressible(m.output)
  {
    RealInputsExpressible(m, owner);
    ExportedMethod(C.HandleKeyword(m.name), C.CppFnSig(link, TypesIntoCpp(RealInputsOfMethod(m, owner)), TypeIntoCpp(m.output)))
  }

  function ExternImplDefOf(b: ZngurExternCppImpl, base: string): ExportedImplDefinition
    requires ExternImplRenderable(b)
  {
    ExportedImplDefinition(
      if b.tr.Some? then Some(TraitIntoCpp(b.tr.value)) else None,
      TypeIntoCpp(b.ty),
      ExternMethodsOf(b.ty, b.methods, ExternMethodNames(b.ty, b.methods, base)))
  }

  /** The header's view of each method of a C++ impl, under the link names given. */
  function ExternMethodsOf(owner: RustType, ms: seq<ZngurMethod>, links: seq<string>): (r: seq<ExportedMethod>)
    requires Expressible(owner) && |links| == |ms|
    requires forall k :: 0 <= k < |ms| ==> InputsExpressible(ms[k].inputs) && Expressible(ms[k].output)
    ensures |r| == |ms| && forall k :: 0 <= k < |ms| ==> r[k] == ExternMethodOf(owner, ms[k], links[k])
  {
    seq(|ms|, k requires 0 <= k < |ms| => ExternMethodOf(owner, ms[k], links[k]))
  }

  function ExternImplDefs(bs: seq<ZngurExternCppImpl>, base: string): (r: seq<ExportedImplDefinition>)
    requires ExternImplsRenderable(bs)
    ensures |r| == |bs|
  {
    if |bs| == 0 then [] else ExternImplDefs(bs[..|bs| - 1], base) + [ExternImplDefOf(bs[|bs| - 1], base)]
  }

  function ExternImplItems(bs: seq<ZngurExternCppImpl>, base: string): seq<Emitted> {
    if |bs| == 0 then []
    else
      var b := bs[|bs| - 1];
      ExternImplItems(bs[..|bs| - 1], base) + Imports(ExternMethodNames(b.ty, b.methods, base))
  }

  // ---- the whole run ----

  /** What `render` needs of a specification: every type, trait, function
      and impl in a form the generator can write. */
  predicate SpecRenderable(spec: ZngurSpec) {
    TypesRenderable(spec.types) && TraitsRenderable(spec.traits) && FnsRenderable(spec.funcs) &&
    ExternFnsRenderable(spec.externCppFuncs) && ExternImplsRenderable(spec.externCppImpls)
  }

  /** The types `render` writes: the user's, then the unit type. */
  function AllTypes(spec: ZngurSpec): (r: seq<ZngurType>)
    ensures |r| == |spec.types| + 1 && r[|spec.types|] == UNIT_TYPE
  {
    spec.types + [UNIT_TYPE]
  }

  function PanicSymbols(base: string): PanicToExceptionSymbols {
    PanicToExceptionSymbols(MangleName("@detect_panic", base), MangleName("@take_panic", base))
  }

  function PanicItems(p: bool, base: string): seq<Emitted> {
    if p then [PanicCell(PanicSymbols(base).detectPanic, PanicSymbols(base).takePanic)] else []
  }

  function TypesOf(spec: ZngurSpec, sha256: string -> Digest): TypesOut
    requires SpecRenderable(spec)
  {
    AllTypesRenderable(spec);
    TypesRendered(AllTypes(spec), spec.manglingBase, sha256, spec.convertPanicToException,
                  TraitDefs(spec.traits, spec.manglingBase, sha256))
  }

  /** The header's contents after `render`. */
  function RenderedCpp(spec: ZngurSpec, sha256: string -> Digest): CppFile
    requires SpecRenderable(spec)
  {
    var base := spec.manglingBase;
    var out := TypesOf(spec, sha256);
    CppFile(spec.cppIncludeHeaderName, spec.additionalIncludes, out.traitDefs,
            if spec.convertPanicToException then Some(PanicSymbols(base)) else None,
            CfgDefines(spec.rustCfg), out.defs, FnDefs(spec.funcs, base, sha256),
            ExternFnDefs(spec.externCppFuncs, base), ExternImplDefs(spec.externCppImpls, base))
  }

  /** The Rust file's declarations after `render`, in order. */
  function RenderedItems(spec: ZngurSpec, sha256: string -> Digest): seq<Emitted>
    requires SpecRenderable(spec)
  {
    var base := spec.manglingBase;
    var p := spec.convertPanicToException;
    TraitsItems(spec.traits, base, sha256) + PanicItems(p, base) + TypesOf(spec, sha256).items +
    FnItems(FnDefs(spec.funcs, base, sha256), p) + ExternFnItems(ExternFnDefs(spec.externCppFuncs, base)) +
    ExternImplItems(spec.externCppImpls, base)
  }

  lemma UnitRenderable()
    ensures TypeRenderable(UNIT_TYPE)
  {
    assert Expressible(UNIT);
  }

  lemma AllTypesRenderable(spec: ZngurSpec)
    requires TypesRenderable(spec.types)
    ensures TypesRenderable(AllTypes(spec))
  {
    UnitRenderable();
  }

  // ---- the loops ----

  /** The trait map of `render`: each trait's builders, under its key. */
  method RenderTraits(rf: RustFile, es: seq<Entry<RustTrait, ZngurTrait>>, sha256: string -> Digest)
    returns (defs: seq<Entry<RustTrait, CppTraitDef>>)
    requires rf.Valid() && TraitsRenderable(es)
    modifies rf
    ensures rf.Valid() && rf.panicToException == old(rf.panicToException) && rf.manglingBase == old(rf.manglingBase)
    ensures defs == TraitDefs(es, rf.manglingBase, sha256)
    ensures rf.items == old(rf.items) + TraitsItems(es, rf.manglingBase, sha256)
  {
    defs := [];
    ghost var start := rf.items;
    for i := 0 to |es|
      invariant rf.Valid() && rf.panicToException == old(rf.panicToException) && rf.manglingBase == old(rf.manglingBase)
      invariant TraitsRenderable(es[..i])
      invariant defs == TraitDefs(es[..i], rf.manglingBase, sha256)
      invariant rf.items == start + TraitsItems(es[..i], rf.manglingBase, sha256)
    {
      defs := RenderTraitPass(rf, es, i, sha256, defs, start);
    }
    assert es[..|es|] == es;
  }

  method RenderTraitPass(rf: RustFile, es: seq<Entry<RustTrait, ZngurTrait>>, i: nat, sha256: string -> Digest,
                         defs: seq<Entry<RustTrait, CppTraitDef>>, ghost start: seq<Emitted>)
    returns (defs': seq<Entry<RustTrait, CppTraitDef>>)
    requires rf.Valid() && TraitsRenderable(es) && i < |es|
    requires TraitsRenderable(es[..i]) && defs == TraitDefs(es[..i], rf.manglingBase, sha256)
    requires rf.items == start + TraitsItems(es[..i], rf.manglingBase, sha256)
    modifies rf
    ensures rf.Valid() && rf.panicToException == old(rf.panicToException) && rf.manglingBase == old(rf.manglingBase)
    ensures TraitsRenderable(es[..i + 1]) && defs' == TraitDefs(es[..i + 1], rf.manglingBase, sha256)
    ensures rf.items == start + TraitsItems(es[..i + 1], rf.manglingBase, sha256)
  {
    var def := RenderTrait(rf, es[i].value, sha256);
    defs' := defs + [Entry(es[i].key, NormalTrait(def))];
    TraitsStep(es, i, rf.manglingBase, sha256, start);
  }

  lemma TraitsStep(es: seq<Entry<RustTrait, ZngurTrait>>, i: nat, base: string, sha256: string -> Digest, start: seq<Emitted>)
    requires TraitsRenderable(es) && i < |es|
    ensures TraitsRenderable(es[..i + 1])
    ensures TraitDefs(es[..i + 1], base, sha256) == TraitDefs(es[..i], base, sha256) + [Entry(es[i].key, NormalTrait(TraitDefOf(es[i].value, base, sha256)))]
    ensures start + TraitsItems(es[..i], base, sha256) + TraitItems(es[i].value, base, sha256) == start + TraitsItems(es[..i + 1], base, sha256)
  {
    assert es[..i + 1][..i] == es[..i];
  }

  /** `add_builder_for_dyn_trait` for one trait. */
  method RenderTrait(rf: RustFile, t: ZngurTrait, sha256: string -> Digest) returns (def: TraitDefinition)
    requires rf.Valid() && TraitRenderable(t)
    modifies rf
    ensures rf.Valid() && rf.panicToException == old(rf.panicToException) && rf.manglingBase == old(rf.manglingBase)
    ensures def == TraitDefOf(t, rf.manglingBase, sha256)
    ensures rf.items == old(rf.items) + TraitItems(t, rf.manglingBase, sha256)
  {
    def := rf.AddBuilderForDynTrait(t, sha256);
    assert def.methods == TraitMethodLinks(t, rf.manglingBase, sha256);
  }

  /** The type loop of `render`. */
  method RenderTypes(rf: RustFile, tds: seq<ZngurType>, traitDefs: seq<Entry<RustTrait, CppTraitDef>>, sha256: string -> Digest)
    returns (defs: seq<TypeDefinition>, traitDefs': seq<Entry<RustTrait, CppTraitDef>>)
    requires rf.Valid() && TypesRenderable(tds)
    modifies rf
    ensures rf.Valid() && rf.panicToException == old(rf.panicToException) && rf.manglingBase == old(rf.manglingBase)
    ensures defs == TypesRendered(tds, rf.manglingBase, sha256, rf.panicToException, traitDefs).defs
    ensures traitDefs' == TypesRendered(tds, rf.manglingBase, sha256, rf.panicToException, traitDefs).traitDefs
    ensures rf.items == old(rf.items) + TypesRendered(tds, rf.manglingBase, sha256, rf.panicToException, traitDefs).items
  {
    defs, traitDefs' := [], traitDefs;
    ghost var start := rf.items;
    ghost var items: seq<Emitted> := [];
    for i := 0 to |tds|
      invariant rf.Valid() && rf.panicToException == old(rf.panicToException) && rf.manglingBase == old(rf.manglingBase)
      invariant TypesRenderable(tds[..i])
      invariant TypesOut(defs, traitDefs', items) == TypesRendered(tds[..i], rf.manglingBase, sha256, rf.panicToException, traitDefs)
      invariant rf.items == start + items
    {
      defs, traitDefs', items := RenderTypePass(rf, tds, i, traitDefs, sha256, defs, traitDefs', items, start);
    }
    assert tds[..|tds|] == tds;
  }

  method RenderTypePass(rf: RustFile, tds: seq<ZngurType>, i: nat, traitDefs: seq<Entry<RustTrait, CppTraitDef>>, sha256: string -> Digest,
                        defs: seq<TypeDefinition>, known: seq<Entry<RustTrait, CppTraitDef>>, ghost items: seq<Emitted>, ghost start: seq<Emitted>)
    returns (defs': seq<TypeDefinition>, known': seq<Entry<RustTrait, CppTraitDef>>, ghost items': seq<Emitted>)
    requires rf.Valid() && TypesRenderable(tds) && i < |tds| && TypesRenderable(tds[..i])
    requires TypesOut(defs, known, items) == TypesRendered(tds[..i], rf.manglingBase, sha256, rf.panicToException, traitDefs)
    requires rf.items == start + items
    modifies rf
    ensures rf.Valid() && rf.panicToException == old(rf.panicToException) && rf.manglingBase == old(rf.manglingBase)
    ensures TypesRenderable(tds[..i + 1])
    ensures TypesOut(defs', known', items') == TypesRendered(tds[..i + 1], rf.manglingBase, sha256, rf.panicToException, traitDefs)
    ensures rf.items == start + items'
  {
    ghost var before := rf.items;
    var def, added := RenderType(rf, tds[i], Keys(known), sha256);
    defs' := defs + [def];
    known' := known + added;
    items' := items + TypeItems(tds[i], rf.manglingBase, sha256, rf.panicToException, Keys(known));
    PrefixSnoc(tds, i);
    TypesRenderedSnoc(tds[..i], tds[i], rf.manglingBase, sha256, rf.panicToException, traitDefs);
    AppendAssoc(start, items, TypeItems(tds[i], rf.manglingBase, sha256, rf.panicToException, Keys(known)));
  }

  lemma TypesRenderedSnoc(tds: seq<ZngurType>, td: ZngurType, base: string, sha256: string -> Digest, p: bool, traitDefs: seq<Entry<RustTrait, CppTraitDef>>)
    requires TypesRenderable(tds) && TypeRenderable(td)
    ensures TypesRenderable(tds + [td])
    ensures var r := TypesRendered(tds, base, sha256, p, traitDefs);
            var known := Keys(r.traitDefs);
            TypesRendered(tds + [td], base, sha256, p, traitDefs) ==
              TypesOut(r.defs + [TypeDefOf(td, base, sha256)], r.traitDefs + NewTraitDefs(td.ty, known, base),
                       r.items + TypeItems(td, base, sha256, p, known))
  {
    assert (tds + [td])[..|tds|] == tds;
  }

  /** The function loop of `render`. */
  method RenderFns(rf: RustFile, fs: seq<ZngurFn>, sha256: string -> Digest) returns (defs: seq<FnDefinition>)
    requires rf.Valid() && FnsRenderable(fs)
    modifies rf
    ensures rf.Valid() && rf.panicToException == old(rf.panicToException) && rf.manglingBase == old(rf.manglingBase)
    ensures defs == FnDefs(fs, rf.manglingBase, sha256)
    ensures rf.items == old(rf.items) + FnItems(defs, rf.panicToException)
  {
    defs := [];
    ghost var start := rf.items;
    for i := 0 to |fs|
      invariant rf.Valid() && rf.panicToException == old(rf.panicToException) && rf.manglingBase == old(rf.manglingBase)
      invariant FnsRenderable(fs[..i]) && defs == FnDefs(fs[..i], rf.manglingBase, sha256)
      invariant rf.items == start + FnItems(defs, rf.panicToException)
    {
      var def := RenderFn(rf, fs[i], sha256);
      PrefixSnoc(fs, i);
      FnsSnoc(fs[..i], fs[i], rf.manglingBase, sha256);
      FnItemsSnoc(defs, def, rf.panicToException);
      AppendAssoc(start, FnItems(defs, rf.panicToException), [Export(def.sig.linkName, rf.panicToException)]);
      defs := defs + [def];
    }
    assert fs[..|fs|] == fs;
  }

  /** `add_function` for a Rust function: its path, its inputs, no deref. */
  method RenderFn(rf: RustFile, f: ZngurFn, sha256: string -> Digest) returns (def: FnDefinition)
    requires rf.Valid() && FnRenderable(f)
    modifies rf
    ensures rf.Valid() && rf.panicToException == old(rf.panicToException) && rf.manglingBase == old(rf.manglingBase)
    ensures def == FnDefOf(f, rf.manglingBase, sha256)
    ensures rf.items == old(rf.items) + [Export(def.sig.linkName, rf.panicToException)]
  {
    var sig := rf.AddFunction(PathToString(f.path), f.inputs, f.output, None, sha256);
    def := FnDefinition(C.FromRustPath(f.path.path), sig);
  }

  lemma FnsSnoc(fs: seq<ZngurFn>, f: ZngurFn, base: string, sha256: string -> Digest)
    requires FnsRenderable(fs) && FnRenderable(f)
    ensures FnsRenderable(fs + [f]) && FnDefs(fs + [f], base, sha256) == FnDefs(fs, base, sha256) + [FnDefOf(f, base, sha256)]
  {
    assert (fs + [f])[..|fs|] == fs;
  }

  lemma FnItemsSnoc(defs: seq<FnDefinition>, def: FnDefinition, p: bool)
    ensures FnItems(defs + [def], p) == FnItems(defs, p) + [Export(def.sig.linkName, p)]
  {
    assert (defs + [def])[..|defs|] == defs;
  }

  /** The loop over the C++ functions Rust calls. */
  method RenderExternFns(rf: RustFile, fs: seq<ZngurExternCppFn>) returns (defs: seq<ExportedFnDefinition>)
    requires rf.Valid() && ExternFnsRenderable(fs)
    modifies rf
    ensures rf.Valid() && rf.panicToException == old(rf.panicToException) && rf.manglingBase == old(rf.manglingBase)
    ensures defs == ExternFnDefs(fs, rf.manglingBase)
    ensures rf.items == old(rf.items) + ExternFnItems(defs)
  {
    defs := [];
    ghost var start := rf.items;
    for i := 0 to |fs|
      invariant rf.Valid() && rf.panicToException == old(rf.panicToException) && rf.manglingBase == old(rf.manglingBase)
      invariant ExternFnsRenderable(fs[..i]) && defs == ExternFnDefs(fs[..i], rf.manglingBase)
      invariant rf.items == start + ExternFnItems(defs)
    {
      var def := RenderExternFn(rf, fs[i]);
      PrefixSnoc(fs, i);
      ExternFnsSnoc(fs[..i], fs[i], rf.manglingBase);
      ExternFnItemsSnoc(defs, def);
      AppendAssoc(start, ExternFnItems(defs), [Import(def.sig.linkName)]);
      defs := defs + [def];
    }
    assert fs[..|fs|] == fs;
  }

  /** `add_extern_cpp_function`: declared under the mangled C++ name. */
  method RenderExternFn(rf: RustFile, f: ZngurExternCppFn) returns (def: ExportedFnDefinition)
    requires rf.Valid() && ExternFnRenderable(f)
    modifies rf
    ensures rf.Valid() && rf.panicToException == old(rf.panicToException) && rf.manglingBase == old(rf.manglingBase)
    ensures def == ExternFnDefOf(f, rf.manglingBase)
    ensures rf.items == old(rf.items) + [Import(def.sig.linkName)]
  {
    var link := rf.AddExternCppFunction(f.name);
    def := ExportedFnDefinition(f.name, C.CppFnSig(link, TypesIntoCpp(f.inputs), TypeIntoCpp(f.output)));
  }

  lemma ExternFnsSnoc(fs: seq<ZngurExternCppFn>, f: ZngurExternCppFn, base: string)
    requires ExternFnsRenderable(fs) && ExternFnRenderable(f)
    ensures ExternFnsRenderable(fs + [f]) && ExternFnDefs(fs + [f], base) == ExternFnDefs(fs, base) + [ExternFnDefOf(f, base)]
  {
    assert (fs + [f])[..|fs|] == fs;
  }

  lemma ExternFnItemsSnoc(defs: seq<ExportedFnDefinition>, def: ExportedFnDefinition)
    ensures ExternFnItems(defs + [def]) == ExternFnItems(defs) + [Import(def.sig.linkName)]
  {
    assert (defs + [def])[..|defs|] == defs;
  }

  /** The loop over the C++ impls Rust calls. */
  method RenderExternImpls(rf: RustFile, bs: seq<ZngurExternCppImpl>) returns (defs: seq<ExportedImplDefinition>)
    requires rf.Valid() && ExternImplsRenderable(bs)
    modifies rf
    ensures rf.Valid() && rf.panicToException == old(rf.panicToException) && rf.manglingBase == old(rf.manglingBase)
    ensures defs == ExternImplDefs(bs, rf.manglingBase)
    ensures rf.items == old(rf.items) + ExternImplItems(bs, rf.manglingBase)
  {
    defs := [];
    ghost var start := rf.items;
    for i := 0 to |bs|
      invariant rf.Valid() && rf.panicToException == old(rf.panicToException) && rf.manglingBase == old(rf.manglingBase)
      invariant ExternImplsRenderable(bs[..i]) && defs == ExternImplDefs(bs[..i], rf.manglingBase)
      invariant rf.items == start + ExternImplItems(bs[..i], rf.manglingBase)
    {
      var def := RenderExternImpl(rf, bs[i]);
      PrefixSnoc(bs, i);
      ExternImplsSnoc(bs[..i], bs[i], rf.manglingBase);
      AppendAssoc(start, ExternImplItems(bs[..i], rf.manglingBase), Imports(ExternMethodNames(bs[i].ty, bs[i].methods, rf.manglingBase)));
      defs := defs + [def];
    }
    assert bs[..|bs|] == bs;
  }

  /** `add_extern_cpp_impl`, then the header's view of each method. */
  method RenderExternImpl(rf: RustFile, b: ZngurExternCppImpl) returns (def: ExportedImplDefinition)
    requires rf.Valid() && ExternImplRenderable(b)
    modifies rf
    ensures rf.Valid() && rf.panicToException == old(rf.panicToException) && rf.manglingBase == old(rf.manglingBase)
    ensures def == ExternImplDefOf(b, rf.manglingBase)
    ensures rf.items == old(rf.items) + Imports(ExternMethodNames(b.ty, b.methods, rf.manglingBase))
  {
    var names := rf.AddExternCppImpl(b.ty, b.methods);
    var methods := ExternMethodsOf(b.ty, b.methods, names);
    def := ExportedImplDefinition(if b.tr.Some? then Some(TraitIntoCpp(b.tr.value)) else None, TypeIntoCpp(b.ty), methods);
  }

  lemma ExternImplsSnoc(bs: seq<ZngurExternCppImpl>, b: ZngurExternCppImpl, base: string)
    requires ExternImplsRenderable(bs) && ExternImplRenderable(b)
    ensures ExternImplsRenderable(bs + [b]) && ExternImplDefs(bs + [b], base) == ExternImplDefs(bs, base) + [ExternImplDefOf(b, base)]
    ensures ExternImplItems(bs + [b], base) == ExternImplItems(bs, base) + Imports(ExternMethodNames(b.ty, b.methods, base))
  {
    assert (bs + [b])[..|bs|] == bs;
  }

  // ---- `render` ----

  /** `enable_panic_to_exception`, when the specification asks for it. */
  method RenderPanic(rf: RustFile, convert: bool) returns (symbols: Option<PanicToExceptionSymbols>)
    requires rf.Valid() && !rf.panicToException
    modifies rf
    ensures rf.Valid() && rf.panicToException == convert && rf.manglingBase == old(rf.manglingBase)
    ensures symbols == if convert then Some(PanicSymbols(rf.manglingBase)) else None
    ensures rf.items == old(rf.items) + PanicItems(convert, rf.manglingBase)
  {
    symbols := None;
    if convert {
      var s := rf.EnablePanicToException();
      symbols := Some(s);
    }
  }

  lemma ConcatFromEmpty<T>(a: seq<T>, b: seq<T>, c: seq<T>, d: seq<T>, e: seq<T>, f: seq<T>)
    ensures [] + a + b + c + d + e + f == a + b + c + d + e + f
  {
  }

  /** `ZngurGenerator::render`: the unit type is appended to the types, a
      fresh Rust file is filled trait by trait, then (after the panic switch)
      type by type, function by function, C++ function by C++ function and
      impl by impl, and the header's contents are collected on the way. */
  method Render(spec: ZngurSpec, sha256: string -> Digest) returns (rf: RustFile, cpp: CppFile)
    requires SpecRenderable(spec)
    ensures fresh(rf) && rf.Valid()
    ensures rf.manglingBase == spec.manglingBase && rf.panicToException == spec.convertPanicToException
    ensures cpp == RenderedCpp(spec, sha256)
    ensures rf.items == RenderedItems(spec, sha256)
  {
    AllTypesRenderable(spec);
    var types := AllTypes(spec);
    rf := new RustFile(spec.manglingBase);
    var traitDefs := RenderTraits(rf, spec.traits, sha256);
    var panic := RenderPanic(rf, spec.convertPanicToException);
    var cfgDefines := CfgDefines(spec.rustCfg);
    var typeDefs, allTraitDefs := RenderTypes(rf, types, traitDefs, sha256);
    var fnDefs := RenderFns(rf, spec.funcs, sha256);
    var externFnDefs := RenderExternFns(rf, spec.externCppFuncs);
    var externImplDefs := RenderExternImpls(rf, spec.externCppImpls);
    cpp := CppFile(spec.cppIncludeHeaderName, spec.additionalIncludes, allTraitDefs, panic, cfgDefines,
                   typeDefs, fnDefs, externFnDefs, externImplDefs);
    RenderedParts(spec, sha256, traitDefs, panic, typeDefs, allTraitDefs, fnDefs, externFnDefs, externImplDefs, rf.items);
  }

  /** The parts the loops produce make up `RenderedCpp` and `RenderedItems`. */
  lemma RenderedParts(spec: ZngurSpec, sha256: string -> Digest, traitDefs: seq<Entry<RustTrait, CppTraitDef>>,
                      panic: Option<PanicToExceptionSymbols>, typeDefs: seq<TypeDefinition>, allTraitDefs: seq<Entry<RustTrait, CppTraitDef>>,
                      fnDefs: seq<FnDefinition>, externFnDefs: seq<ExportedFnDefinition>, externImplDefs: seq<ExportedImplDefinition>,
                      items: seq<Emitted>)
    requires SpecRenderable(spec) && TypesRenderable(AllTypes(spec))
    requires traitDefs == TraitDefs(spec.traits, spec.manglingBase, sha256)
    requires panic == if spec.convertPanicToException then Some(PanicSymbols(spec.manglingBase)) else None
    requires var out := TypesRendered(AllTypes(spec), spec.manglingBase, sha256, spec.convertPanicToException, traitDefs);
             typeDefs == out.defs && allTraitDefs == out.traitDefs
    requires fnDefs == FnDefs(spec.funcs, spec.manglingBase, sha256)
    requires externFnDefs == ExternFnDefs(spec.externCppFuncs, spec.manglingBase)
    requires externImplDefs == ExternImplDefs(spec.externCppImpls, spec.manglingBase)
    requires items == [] + TraitsItems(spec.traits, spec.manglingBase, sha256) + PanicItems(spec.convertPanicToException, spec.manglingBase) +
                      TypesRendered(AllTypes(spec), spec.manglingBase, sha256, spec.convertPanicToException, traitDefs).items +
                      FnItems(fnDefs, spec.convertPanicToException) + ExternFnItems(externFnDefs) +
                      ExternImplItems(spec.externCppImpls, spec.manglingBase)
    ensures CppFile(spec.cppIncludeHeaderName, spec.additionalIncludes, allTraitDefs, panic, CfgDefines(spec.rustCfg),
                    typeDefs, fnDefs, externFnDefs, externImplDefs) == RenderedCpp(spec, sha256)
    ensures items == RenderedItems(spec, sha256)
  {
    RenderedCppParts(spec, sha256, traitDefs, panic, typeDefs, allTraitDefs, fnDefs, externFnDefs, externImplDefs);
    RenderedItemsParts(spec, sha256, traitDefs, fnDefs, items);
  }

  lemma RenderedCppParts(spec: ZngurSpec, sha256: string -> Digest, traitDefs: seq<Entry<RustTrait, CppTraitDef>>,
                         panic: Option<PanicToExceptionSymbols>, typeDefs: seq<TypeDefinition>, allTraitDefs: seq<Entry<RustTrait, CppTraitDef>>,
                         fnDefs: seq<FnDefinition>, externFnDefs: seq<ExportedFnDefinition>, externImplDefs: seq<ExportedImplDefinition>)
    requires SpecRenderable(spec) && TypesRenderable(AllTypes(spec))
    requires traitDefs == TraitDefs(spec.traits, spec.manglingBase, sha256)
    requires panic == if spec.convertPanicToException then Some(PanicSymbols(spec.manglingBase)) else None
    requires var out := TypesRendered(AllTypes(spec), spec.manglingBase, sha256, spec.convertPanicToException, traitDefs);
             typeDefs == out.defs && allTraitDefs == out.traitDefs
    requires fnDefs == FnDefs(spec.funcs, spec.manglingBase, sha256)
    requires externFnDefs == ExternFnDefs(spec.externCppFuncs, spec.manglingBase)
    requires externImplDefs == ExternImplDefs(spec.externCppImpls, spec.manglingBase)
    ensures CppFile(spec.cppIncludeHeaderName, spec.additionalIncludes, allTraitDefs, panic, CfgDefines(spec.rustCfg),
                    typeDefs, fnDefs, externFnDefs, externImplDefs) == RenderedCpp(spec, sha256)
  {
  }

  lemma RenderedItemsParts(spec: ZngurSpec, sha256: string -> Digest, traitDefs: seq<Entry<RustTrait, CppTraitDef>>,
                           fnDefs: seq<FnDefinition>, items: seq<Emitted>)
    requires SpecRenderable(spec) && TypesRenderable(AllTypes(spec))
    requires traitDefs == TraitDefs(spec.traits, spec.manglingBase, sha256)
    requires fnDefs == FnDefs(spec.funcs, spec.manglingBase, sha256)
    requires items == [] + TraitsItems(spec.traits, spec.manglingBase, sha256) + PanicItems(spec.convertPanicToException, spec.manglingBase) +
                      TypesRendered(AllTypes(spec), spec.manglingBase, sha256, spec.convertPanicToException, traitDefs).items +
                      FnItems(fnDefs, spec.convertPanicToException) + ExternFnItems(ExternFnDefs(spec.externCppFuncs, spec.manglingBase)) +
                      ExternImplItems(spec.externCppImpls, spec.manglingBase)
    ensures items == RenderedItems(spec, sha256)
  {
    ConcatFromEmpty(TraitsItems(spec.traits, spec.manglingBase, sha256), PanicItems(spec.convertPanicToException, spec.manglingBase),
                    TypesOf(spec, sha256).items, FnItems(fnDefs, spec.convertPanicToException),
                    ExternFnItems(ExternFnDefs(spec.externCppFuncs, spec.manglingBase)),
                    ExternImplItems(spec.externCppImpls, spec.manglingBase));
  }

  // ---- what the header gets ----

  /** The type loop writes one definition per type, in order. */
  lemma {:induction false} TypesRenderedDefs(tds: seq<ZngurType>, base: string, sha256: string -> Digest, p: bool,
                                             traitDefs: seq<Entry<RustTrait, CppTraitDef>>)
    requires TypesRenderable(tds)
    ensures forall k | 0 <= k < |tds| :: TypesRendered(tds, base, sha256, p, traitDefs).defs[k] == TypeDefOf(tds[k], base, sha256)
  {
    if |tds| > 0 {
      var tds', td := tds[..|tds| - 1], tds[|tds| - 1];
      TypesRenderedDefs(tds', base, sha256, p, traitDefs);
      LastSplit(tds);
      TypesRenderedSnoc(tds', td, base, sha256, p, traitDefs);
    }
  }

  /** `out` is the trait table `start` with closure traits appended, and it
      has no key twice when `start` has none. */
  predicate TableExtends(start: seq<Entry<RustTrait, CppTraitDef>>, out: seq<Entry<RustTrait, CppTraitDef>>) {
    |start| <= |out| && out[..|start|] == start &&
    (forall j | |start| <= j < |out| :: out[j].key.FnTrait? && out[j].value.FnTraitDef?) &&
    (NoDup(Keys(start)) ==> NoDup(Keys(out)))
  }

  /** One type's closure trait keeps the table an extension of the start,
      keeps every key and adds the trait the type boxes. */
  lemma TraitTableStep(start: seq<Entry<RustTrait, CppTraitDef>>, prev: seq<Entry<RustTrait, CppTraitDef>>, ty: RustType, base: string)
    requires Expressible(ty) && TableExtends(start, prev)
    ensures var next := prev + NewTraitDefs(ty, Keys(prev), base);
            TableExtends(start, next) && (forall x | x in Keys(prev) :: x in Keys(next)) &&
            (FromTrait(ty).Some? && FromTrait(ty).value.FnTrait? ==> FromTrait(ty).value in Keys(next))
  {
    var added := NewTraitDefs(ty, Keys(prev), base);
    NewTraitDefsShape(ty, Keys(prev), base);
    KeysAppend(prev, added);
    assert (prev + added)[..|start|] == prev[..|start|];
  }

  /** The trait table after one more type, on its own. */
  lemma TraitsSnoc(tds: seq<ZngurType>, td: ZngurType, base: string, sha256: string -> Digest, p: bool, traitDefs: seq<Entry<RustTrait, CppTraitDef>>)
    requires TypesRenderable(tds) && TypeRenderable(td)
    ensures TypesRenderable(tds + [td])
    ensures var prev := TypesRendered(tds, base, sha256, p, traitDefs).traitDefs;
            TypesRendered(tds + [td], base, sha256, p, traitDefs).traitDefs == prev + NewTraitDefs(td.ty, Keys(prev), base)
  {
    TypesRenderedSnoc(tds, td, base, sha256, p, traitDefs);
  }

  /** Every closure trait a `Box<dyn Fn…>` type of `tds` names is a key of `out`. */
  predicate FnTraitsIn(tds: seq<ZngurType>, out: seq<Entry<RustTrait, CppTraitDef>>) {
    forall k | 0 <= k < |tds| && FromTrait(tds[k].ty).Some? && FromTrait(tds[k].ty).value.FnTrait? ::
      FromTrait(tds[k].ty).value in Keys(out)
  }

  lemma FnTraitsInSnoc(tds: seq<ZngurType>, td: ZngurType, prev: seq<Entry<RustTrait, CppTraitDef>>, out: seq<Entry<RustTrait, CppTraitDef>>)
    requires FnTraitsIn(tds, prev) && (forall x | x in Keys(prev) :: x in Keys(out))
    requires FromTrait(td.ty).Some? && FromTrait(td.ty).value.FnTrait? ==> FromTrait(td.ty).value in Keys(out)
    ensures FnTraitsIn(tds + [td], out)
  {
    var all := tds + [td];
    forall k | 0 <= k < |all| && FromTrait(all[k].ty).Some? && FromTrait(all[k].ty).value.FnTrait?
      ensures FromTrait(all[k].ty).value in Keys(out)
    {
      if k < |tds| {
        assert all[k] == tds[k];
      }
    }
  }

  /** The type loop keeps the trait table it starts from as a prefix and
      only appends closure traits, each under a key not yet in the table,
      and every closure trait a `Box<dyn Fn…>` type names ends up in it. */
  lemma {:induction false} TypesRenderedTraits(tds: seq<ZngurType>, base: string, sha256: string -> Digest, p: bool,
                                               traitDefs: seq<Entry<RustTrait, CppTraitDef>>)
    requires TypesRenderable(tds)
    ensures var out := TypesRendered(tds, base, sha256, p, traitDefs).traitDefs;
            TableExtends(traitDefs, out) && FnTraitsIn(tds, out)
  {
    if |tds| == 0 {
      assert traitDefs[..|traitDefs|] == traitDefs;
    } else {
      var tds', td := tds[..|tds| - 1], tds[|tds| - 1];
      TypesRenderedTraits(tds', base, sha256, p, traitDefs);
      LastSplit(tds);
      TraitsSnoc(tds', td, base, sha256, p, traitDefs);
      var prev := TypesRendered(tds', base, sha256, p, traitDefs).traitDefs;
      TraitTableStep(traitDefs, prev, td.ty, base);
      FnTraitsInSnoc(tds', td, prev, prev + NewTraitDefs(td.ty, Keys(prev), base));
    }
  }

  /** The header defines every type of the specification in order and then
      the unit type, which is zero-sized, `Copy`, and has nothing else. */
  lemma RenderedTypeDefs(spec: ZngurSpec, sha256: string -> Digest)
    requires SpecRenderable(spec)
    ensures var defs := RenderedCpp(spec, sha256).typeDefs;
            |defs| == |spec.types| + 1 &&
            (forall k | 0 <= k < |spec.types| :: defs[k] == TypeDefOf(spec.types[k], spec.manglingBase, sha256)) &&
            defs[|spec.types|].ty == TypeIntoCpp(UNIT) &&
            defs[|spec.types|].layout == CppStackAllocated(0, 1) &&
            defs[|spec.types|].constructors == [] && defs[|spec.types|].methods == [] &&
            defs[|spec.types|].fields == [] && |defs[|spec.types|].wellknownTraits| == 1 &&
            defs[|spec.types|].cppValue.None? && defs[|spec.types|].fromTrait.None?
  {
    AllTypesRenderable(spec);
    var types := AllTypes(spec);
    TypesRenderedDefs(types, spec.manglingBase, sha256, spec.convertPanicToException,
                      TraitDefs(spec.traits, spec.manglingBase, sha256));
    UnitTypeDef(spec.manglingBase, sha256);
  }

  lemma UnitTypeDef(base: string, sha256: string -> Digest)
    ensures TypeRenderable(UNIT_TYPE)
    ensures var d := TypeDefOf(UNIT_TYPE, base, sha256);
            d.ty == TypeIntoCpp(UNIT) && d.layout == CppStackAllocated(0, 1) && d.constructors == [] && d.methods == [] &&
            d.fields == [] && |d.wellknownTraits| == 1 && d.cppValue.None? && d.fromTrait.None?
  {
    UnitRenderable();
    assert WellknownDatas(UNIT, [Copy], base) == WellknownDatas(UNIT, [], base) + [WellknownData(UNIT, Copy, base)] by {
      assert [Copy][..0] == [];
    }
  }

  /** The trait table of the header starts with the specification's traits,
      in order, adds only closure traits, and has no key twice when the
      specification has none. */
  lemma RenderedTraitDefs(spec: ZngurSpec, sha256: string -> Digest)
    requires SpecRenderable(spec)
    ensures var out := RenderedCpp(spec, sha256).traitDefs;
            |spec.traits| <= |out| && Keys(out)[..|spec.traits|] == Keys(spec.traits) &&
            (forall j | |spec.traits| <= j < |out| :: out[j].key.FnTrait? && out[j].value.FnTraitDef?) &&
            (NoDup(Keys(spec.traits)) ==> NoDup(Keys(out)))
  {
    var start := TraitDefs(spec.traits, spec.manglingBase, sha256);
    var out := RenderedTraitTable(spec, sha256);
    TraitDefsKeys(spec.traits, spec.manglingBase, sha256);
    KeysPrefix(out, |start|);
  }

  /** Every closure trait a type of the specification boxes has its
      builder in the header's trait table. */
  lemma RenderedFnTraits(spec: ZngurSpec, sha256: string -> Digest)
    requires SpecRenderable(spec)
    ensures var out := RenderedCpp(spec, sha256).traitDefs;
            forall k | 0 <= k < |spec.types| && FromTrait(spec.types[k].ty).Some? && FromTrait(spec.types[k].ty).value.FnTrait? ::
              FromTrait(spec.types[k].ty).value in Keys(out)
  {
    var out := RenderedTraitTable(spec, sha256);
    var types := AllTypes(spec);
    forall k | 0 <= k < |spec.types| && FromTrait(spec.types[k].ty).Some? && FromTrait(spec.types[k].ty).value.FnTrait?
      ensures FromTrait(spec.types[k].ty).value in Keys(out)
    {
      assert types[k] == spec.types[k];
    }
  }

  /** The header's trait table is what the type loop leaves of the traits'. */
  lemma RenderedTraitTable(spec: ZngurSpec, sha256: string -> Digest) returns (out: seq<Entry<RustTrait, CppTraitDef>>)
    requires SpecRenderable(spec)
    ensures TypesRenderable(AllTypes(spec))
    ensures out == RenderedCpp(spec, sha256).traitDefs
    ensures TableExtends(TraitDefs(spec.traits, spec.manglingBase, sha256), out)
    ensures FnTraitsIn(AllTypes(spec), out)
  {
    AllTypesRenderable(spec);
    var start := TraitDefs(spec.traits, spec.manglingBase, sha256);
    out := TypesRendered(AllTypes(spec), spec.manglingBase, sha256, spec.convertPanicToException, start).traitDefs;
    TypesRenderedTraits(AllTypes(spec), spec.manglingBase, sha256, spec.convertPanicToException, start);
  }

  /** The trait table keeps the specification's keys in order. */
  lemma {:induction false} TraitDefsKeys(es: seq<Entry<RustTrait, ZngurTrait>>, base: string, sha256: string -> Digest)
    requires TraitsRenderable(es)
    ensures Keys(TraitDefs(es, base, sha256)) == Keys(es)
  {
    if |es| > 0 {
      TraitDefsKeys(es[..|es| - 1], base, sha256);
    }
  }

  /** One function definition per Rust function, under its own path and
      with its own parameter types. */
  lemma {:induction false} FnDefsShape(fs: seq<ZngurFn>, base: string, sha256: string -> Digest)
    requires FnsRenderable(fs)
    ensures var defs := FnDefs(fs, base, sha256);
            forall k | 0 <= k < |fs| :: defs[k].name == C.FromRustPath(fs[k].path.path) && defs[k].sig.inputs == TypesIntoCpp(fs[k].inputs)
  {
    if |fs| > 0 {
      var fs', f := fs[..|fs| - 1], fs[|fs| - 1];
      FnDefsShape(fs', base, sha256);
      LastSplit(fs);
      FnsSnoc(fs', f, base, sha256);
    }
  }

  /** One export per function definition, in order, under its link name. */
  lemma {:induction false} FnItemsShape(defs: seq<FnDefinition>, p: bool)
    ensures FnItems(defs, p) == seq(|defs|, k requires 0 <= k < |defs| => Export(defs[k].sig.linkName, p))
  {
    if |defs| > 0 {
      var defs', d := defs[..|defs| - 1], defs[|defs| - 1];
      FnItemsShape(defs', p);
      LastSplit(defs);
      FnItemsSnoc(defs', d, p);
    }
  }
}
