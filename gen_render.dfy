/**
 * `ZngurGenerator::render` (zngur-generator/src/lib.rs): the walk over a
 * finished specification that asks the Rust file for every glue function and
 * collects, for the C++ header, one definition per type, per function, per
 * C++ function Rust calls and per C++ impl, together with the traits C++ can
 * implement, the panic symbols and the cfg macros.
 *
 * Every step is a method over the `RustFile` class, proved against a
 * function that says what the step adds; the lemmas at the end state what the
 * header sees of each type.
 */
module GenRender {
  import opened Wrappers
  import opened StrUtil
  import opened SeqUtil
  import opened ZngurDef
  import C = CppTypes
  import opened RustGen
  import opened IntoCpp
  import opened RustEmit

  // ---- what the header is built from ----

  /** A member function of a C++ type: its name, how it takes `self`, and
      the Rust function behind it. */
  datatype CppMethod = CppMethod(name: string, kind: MethodReceiver, sig: C.CppFnSig)

  /** A field with its offset, as the header places it. */
  datatype FieldData = FieldData(name: string, ty: RustType, offset: nat)

  /** A trait C++ can implement: a normal trait with its builders, or a
      closure trait with the single builder of `Box<dyn Fn…>`. */
  datatype CppTraitDef =
    | NormalTrait(def: TraitDefinition)
    | FnTraitDef(sig: C.CppFnSig)

  datatype TypeDefinition = TypeDefinition(
    ty: C.CppType,
    layout: CppLayoutPolicy,
    constructors: seq<C.CppFnSig>,
    fields: seq<FieldData>,
    methods: seq<CppMethod>,
    wellknownTraits: seq<ZngurWellknownTraitData>,
    cppValue: Option<CppValue>,
    cppRef: Option<CppRef>,
    fromTrait: Option<RustTrait>,
    fromTraitRef: Option<RustTrait>)

  datatype FnDefinition = FnDefinition(name: C.CppPath, sig: C.CppFnSig)

  datatype ExportedFnDefinition = ExportedFnDefinition(name: string, sig: C.CppFnSig)

  datatype ExportedMethod = ExportedMethod(name: string, sig: C.CppFnSig)

  datatype ExportedImplDefinition = ExportedImplDefinition(tr: Option<C.CppType>, ty: C.CppType, methods: seq<ExportedMethod>)

  /** The parts of `CppFile` that `render` fills in. */
  datatype CppFile = CppFile(
    headerFileName: string,
    additionalIncludes: string,
    traitDefs: seq<Entry<RustTrait, CppTraitDef>>,
    panicToException: Option<PanicToExceptionSymbols>,
    rustCfgDefines: seq<string>,
    typeDefs: seq<TypeDefinition>,
    fnDefs: seq<FnDefinition>,
    exportedFnDefs: seq<ExportedFnDefinition>,
    exportedImpls: seq<ExportedImplDefinition>)

  function Keys<K, V>(es: seq<Entry<K, V>>): (r: seq<K>)
    ensures |r| == |es| && forall k | 0 <= k < |es| :: r[k] == es[k].key
  {
    if |es| == 0 then [] else Keys(es[..|es| - 1]) + [es[|es| - 1].key]
  }

  lemma {:induction false} KeysAppend<K, V>(a: seq<Entry<K, V>>, b: seq<Entry<K, V>>)
    ensures Keys(a + b) == Keys(a) + Keys(b)
    decreases |b|
  {
    if |b| == 0 {
      assert a + b == a;
    } else {
      var b' := b[..|b| - 1];
      assert (a + b)[..|a + b| - 1] == a + b';
      KeysAppend(a, b');
    }
  }

  lemma KeysPrefix<K, V>(es: seq<Entry<K, V>>, n: nat)
    requires n <= |es|
    ensures Keys(es)[..n] == Keys(es[..n])
  {
  }

  // ---- cfg macros ----

  /** A value that `trim` empties. */
  predicate IsBlank(s: string) { |Trim(s)| == 0 }

  /** Everything but an ASCII letter or digit becomes `_`. */
  function Sanitize(c: char): char { if IsAsciiAlnum(c) then c else '_' }

  predicate MacroChar(c: char) { IsDigit(c) || 'A' <= c <= 'Z' || c == '_' }

  /** The macro a cfg key (and its value, when it has one that is not blank)
      turns into: `ZNGUR_CFG_KEY` or `ZNGUR_CFG_KEY_VALUE`. */
  function CfgDefine(key: string, value: Option<string>): (r: string)
    ensures StartsWith(r, "ZNGUR_CFG_")
  {
    var suffix := match value
      case None => ""
      case Some(v) => if IsBlank(v) then "" else "_" + ToUpper(MapChars(v, Sanitize));
    "ZNGUR_CFG_" + ToUpper(key) + suffix
  }

  function CfgDefines(pairs: seq<CfgPair>): (r: seq<string>)
    ensures |r| == |pairs| && forall k | 0 <= k < |pairs| :: r[k] == CfgDefine(pairs[k].key, pairs[k].value)
  {
    if |pairs| == 0 then [] else CfgDefines(pairs[..|pairs| - 1]) + [CfgDefine(pairs[|pairs| - 1].key, pairs[|pairs| - 1].value)]
  }

  /** A key without a value, or with a blank one, names the bare macro; any
      other value adds `_` and as many characters as it has, each an upper
      case letter, a digit or `_`. */
  lemma CfgDefineShape(key: string, value: Option<string>)
    ensures value.None? || IsBlank(value.value) ==> CfgDefine(key, value) == "ZNGUR_CFG_" + ToUpper(key)
    ensures value.Some? && !IsBlank(value.value) ==>
              var r := CfgDefine(key, value);
              var n := 10 + |key|;
              |r| == n + 1 + |value.value| && r[..n] == "ZNGUR_CFG_" + ToUpper(key) && r[n] == '_' &&
              forall i | n < i < |r| :: MacroChar(r[i])
  {
    if value.Some? && !IsBlank(value.value) {
      var v := value.value;
      var up := ToUpper(MapChars(v, Sanitize));
      assert CfgDefine(key, value) == "ZNGUR_CFG_" + ToUpper(key) + "_" + up;
      forall i | 0 <= i < |up| ensures MacroChar(up[i]) {
        assert up[i] == AsciiUpper(Sanitize(v[i]));
      }
    }
  }

  /** A value already made of upper case letters, digits and `_` is kept
      as it is. */
  lemma CfgDefineKeepsMacroValue(key: string, v: string)
    requires !IsBlank(v) && forall i | 0 <= i < |v| :: MacroChar(v[i])
    ensures CfgDefine(key, Some(v)) == "ZNGUR_CFG_" + ToUpper(key) + "_" + v
  {
    var up := ToUpper(MapChars(v, Sanitize));
    assert up == v;
  }

  // ---- methods and their receivers ----

  /** `real_inputs_of_method`: a method's inputs as Rust sees them, with the
      receiver in front unless the method is static. */
  function RealInputsOfMethod(m: ZngurMethod, ty: RustType): (r: seq<RustType>)
    ensures |r| == |m.inputs| + (if m.receiver.Static? then 0 else 1)
    ensures r[|r| - |m.inputs|..] == m.inputs
    ensures m.receiver.ByRef? ==> r[0] == Ref(m.receiver.m, ty)
    ensures m.receiver.Move? ==> r[0] == ty
  {
    match m.receiver
    case Static => m.inputs
    case ByRef(mu) => [Ref(mu, ty)] + m.inputs
    case Move => [ty] + m.inputs
  }

  /** `CppType::into_ref`: the borrowed form `rust::Ref<T>`. */
  function IntoRef(t: C.CppType): C.CppType {
    C.CppType(RustNs("Ref"), [t])
  }

  predicate InputsExpressible(ts: seq<RustType>) {
    forall j | 0 <= j < |ts| :: Expressible(ts[j])
  }

  lemma RealInputsExpressible(m: ZngurMethod, ty: RustType)
    requires Expressible(ty) && InputsExpressible(m.inputs)
    ensures InputsExpressible(RealInputsOfMethod(m, ty))
  {
    var r := RealInputsOfMethod(m, ty);
    forall j | 0 <= j < |r| ensures Expressible(r[j]) {
      if j >= |r| - |m.inputs| {
        assert r[j] == r[|r| - |m.inputs|..][j - (|r| - |m.inputs|)];
      }
    }
  }

  /** What C++ passes for `self`: `rust::Ref<T>` or `rust::RefMut<T>` for a
      borrowing method, `T` for a consuming one, nothing for a static one;
      the borrowed form is what `into_ref` builds. */
  lemma ReceiverIntoCpp(m: ZngurMethod, ty: RustType)
    requires Expressible(ty) && InputsExpressible(m.inputs)
    ensures InputsExpressible(RealInputsOfMethod(m, ty))
    ensures var cs := TypesIntoCpp(RealInputsOfMethod(m, ty));
            (m.receiver.ByRef? ==>
               cs[0] == C.CppType(RustNs(if m.receiver.m.Mut? then "RefMut" else "Ref"), [TypeIntoCpp(ty)])) &&
            (m.receiver.ByRef? && m.receiver.m.Not? ==> cs[0] == IntoRef(TypeIntoCpp(ty))) &&
            (m.receiver.Move? ==> cs[0] == TypeIntoCpp(ty)) &&
            cs[|cs| - |m.inputs|..] == TypesIntoCpp(m.inputs)
  {
    RealInputsExpressible(m, ty);
    var r := RealInputsOfMethod(m, ty);
    TypesIntoCppAt(r);
    TypesIntoCppAt(m.inputs);
    WrapperTypes(ty);
    var cs := TypesIntoCpp(r);
    var d := |r| - |m.inputs|;
    assert cs[d..] == TypesIntoCpp(m.inputs) by {
      forall j | 0 <= j < |m.inputs| ensures cs[d..][j] == TypesIntoCpp(m.inputs)[j] {
        assert r[d + j] == m.inputs[j] by { assert r[d..][j] == m.inputs[j]; }
      }
    }
  }

  /** The Rust path a method is called through: the type (or the type the
      method is reached by deref through), the name, and the generics. */
  function MethodRustName(ty: RustType, md: ZngurMethodDetails): string {
    var owner := if md.deref.Some? then md.deref.value.ty else ty;
    "<" + TypeToString(owner) + ">::" + md.data.name + "::<" + Join(TypesToStrings(md.data.generics), ", ") + ">"
  }

  predicate MethodExpressible(md: ZngurMethodDetails) {
    InputsExpressible(md.data.inputs) && Expressible(ReturnedType(md.data.output))
  }

  function MethodSig(ty: RustType, md: ZngurMethodDetails, base: string, sha256: string -> Digest): C.CppFnSig
    requires Expressible(ty) && MethodExpressible(md)
  {
    RealInputsExpressible(md.data, ty);
    var inputs := RealInputsOfMethod(md.data, ty);
    C.CppFnSig(FunctionLinkName(MethodRustName(ty, md), base, inputs, md.deref.Some?, sha256),
               TypesIntoCpp(inputs), TypeIntoCpp(ReturnedType(md.data.output)))
  }

  predicate MethodsExpressible(ms: seq<ZngurMethodDetails>) {
    forall k | 0 <= k < |ms| :: MethodExpressible(ms[k])
  }

  /** The C++ member functions for the user's methods, in order. */
  function MethodMethods(ty: RustType, ms: seq<ZngurMethodDetails>, base: string, sha256: string -> Digest): (r: seq<CppMethod>)
    requires Expressible(ty) && MethodsExpressible(ms)
    ensures |r| == |ms|
  {
    if |ms| == 0 then []
    else
      var md := ms[|ms| - 1];
      MethodMethods(ty, ms[..|ms| - 1], base, sha256) + [CppMethod(C.HandleKeyword(md.data.name), md.data.receiver, MethodSig(ty, md, base, sha256))]
  }

  /** Each member function's Rust side is one export, wrapped iff `p`. */
  function MethodItems(ms: seq<CppMethod>, p: bool): (r: seq<Emitted>)
    ensures |r| == |ms| && forall k | 0 <= k < |ms| :: r[k] == Export(ms[k].sig.linkName, p)
  {
    if |ms| == 0 then [] else MethodItems(ms[..|ms| - 1], p) + [Export(ms[|ms| - 1].sig.linkName, p)]
  }

  // ---- constructors ----

  predicate CtorExpressible(c: ZngurConstructor) {
    forall j | 0 <= j < |c.inputs| :: Expressible(c.inputs[j].ty)
  }

  predicate CtorsExpressible(cs: seq<ZngurConstructor>) {
    forall k | 0 <= k < |cs| :: CtorExpressible(cs[k])
  }

  function NamedIntoCpp(ns: seq<Named>): (r: seq<C.CppType>)
    requires forall j | 0 <= j < |ns| :: Expressible(ns[j].ty)
    ensures |r| == |ns| && forall j | 0 <= j < |ns| :: r[j] == TypeIntoCpp(ns[j].ty)
  {
    seq(|ns|, j requires 0 <= j < |ns| => TypeIntoCpp(ns[j].ty))
  }

  /** The Rust path a constructor builds: the type for a struct, the type
      and the variant for an enum variant. */
  function CtorRustName(ty: RustType, c: ZngurConstructor): string {
    if c.name.Some? then TypeToString(ty) + "::" + c.name.value else TypeToString(ty)
  }

  /** A variant becomes a static member function named after it and a
      `matches_` test on a borrowed value; a struct constructor becomes none. */
  function CtorMethodsOf(ty: RustType, c: ZngurConstructor, base: string): seq<CppMethod>
    requires Expressible(ty) && CtorExpressible(c)
  {
    var link := MangleName(CtorRustName(ty, c), base);
    match c.name
    case Some(name) =>
      [CppMethod(C.HandleKeyword(name), Static, C.CppFnSig(link, NamedIntoCpp(c.inputs), TypeIntoCpp(ty))),
       CppMethod("matches_" + name, ByRef(Not), C.CppFnSig(link + "_check", [IntoRef(TypeIntoCpp(ty))], Scalar("uint8_t")))]
    case None => []
  }

  /** A struct constructor becomes a C++ constructor; a variant none. */
  function CtorSigsOf(ty: RustType, c: ZngurConstructor, base: string): seq<C.CppFnSig>
    requires Expressible(ty) && CtorExpressible(c)
  {
    if c.name.Some? then [] else [C.CppFnSig(MangleName(CtorRustName(ty, c), base), NamedIntoCpp(c.inputs), TypeIntoCpp(ty))]
  }

  function CtorMethods(ty: RustType, cs: seq<ZngurConstructor>, base: string): seq<CppMethod>
    requires Expressible(ty) && CtorsExpressible(cs)
  {
    if |cs| == 0 then [] else CtorMethods(ty, cs[..|cs| - 1], base) + CtorMethodsOf(ty, cs[|cs| - 1], base)
  }

  function CtorSigs(ty: RustType, cs: seq<ZngurConstructor>, base: string): seq<C.CppFnSig>
    requires Expressible(ty) && CtorsExpressible(cs)
  {
    if |cs| == 0 then [] else CtorSigs(ty, cs[..|cs| - 1], base) + CtorSigsOf(ty, cs[|cs| - 1], base)
  }

  /** The link names of the constructors, in order. */
  function CtorLinks(ty: RustType, cs: seq<ZngurConstructor>, base: string): (r: seq<string>)
    ensures |r| == |cs|
  {
    if |cs| == 0 then [] else CtorLinks(ty, cs[..|cs| - 1], base) + [MangleName(CtorRustName(ty, cs[|cs| - 1]), base)]
  }

  /** Every constructor exports the constructor and its `_check`. */
  function CtorItems(links: seq<string>): seq<Emitted> {
    if |links| == 0 then []
    else
      var link := links[|links| - 1];
      CtorItems(links[..|links| - 1]) + Exports([link, link + "_check"])
  }

  /** A non-empty tuple also gets a constructor from its fields. */
  function TupleSigs(ty: RustType, base: string): seq<C.CppFnSig>
    requires Expressible(ty)
  {
    match ty
    case Tuple(fs) =>
      if |fs| > 0 then [C.CppFnSig(MangleName(Join(TypesToStrings(fs), "&"), base), TypesIntoCpp(fs), TypeIntoCpp(ty))] else []
    case _ => []
  }

  function TupleItems(ty: RustType, base: string): seq<Emitted> {
    match ty
    case Tuple(fs) => if |fs| > 0 then Exports([MangleName(Join(TypesToStrings(fs), "&"), base)]) else []
    case _ => []
  }

  // ---- fields and well-known traits ----

  predicate FieldsPlaced(fs: seq<ZngurField>) {
    forall k | 0 <= k < |fs| :: fs[k].offset.Some?
  }

  function FieldDatas(fs: seq<ZngurField>): (r: seq<FieldData>)
    requires FieldsPlaced(fs)
    ensures |r| == |fs|
  {
    if |fs| == 0 then []
    else
      var f := fs[|fs| - 1];
      FieldDatas(fs[..|fs| - 1]) + [FieldData(f.name, f.ty, f.offset.value)]
  }

  function FieldItems(owner: RustType, fs: seq<ZngurField>): seq<Emitted>
    requires FieldsPlaced(fs)
  {
    if |fs| == 0 then []
    else
      var f := fs[|fs| - 1];
      FieldItems(owner, fs[..|fs| - 1]) + [OffsetAssert(owner, f.name, f.ty, f.offset.value)]
  }

  function WellknownDatas(ty: RustType, ts: seq<ZngurWellknownTrait>, base: string): (r: seq<ZngurWellknownTraitData>)
    ensures |r| == |ts|
  {
    if |ts| == 0 then [] else WellknownDatas(ty, ts[..|ts| - 1], base) + [WellknownData(ty, ts[|ts| - 1], base)]
  }

  function WellknownItemsOf(d: ZngurWellknownTraitData): seq<Emitted> {
    match d
    case DropData(x) => Exports([x])
    case DebugData(pretty, debug) => Exports([pretty, debug])
    case _ => []
  }

  /** The glue functions behind a list of well-known trait data, in order. */
  function WellknownItems(ds: seq<ZngurWellknownTraitData>): seq<Emitted> {
    if |ds| == 0 then [] else WellknownItems(ds[..|ds| - 1]) + WellknownItemsOf(ds[|ds| - 1])
  }

  // ---- layout, C++ value and closure traits ----

  function ShimLayout(ty: RustType, l: LayoutPolicy, base: string): CppLayoutPolicy {
    match l
    case StackAllocated(size, align) => CppStackAllocated(size, align)
    case HeapAllocated =>
      CppHeapAllocated(MangleName(TypeToString(ty) + "_size_fn", base),
                       MangleName(TypeToString(ty) + "_alloc_fn", base),
                       MangleName(TypeToString(ty) + "_free_fn", base))
    case _ => CppOnlyByRef
  }

  function ShimItems(ty: RustType, l: LayoutPolicy, base: string): seq<Emitted> {
    match ShimLayout(ty, l, base)
    case CppHeapAllocated(s, a, f) => if l.HeapAllocated? then Exports([s, a, f]) else []
    case _ => []
  }

  /** The static size and alignment checks of a stack layout. */
  function LayoutAssertItems(ty: RustType, l: LayoutPolicy): seq<Emitted> {
    if l.StackAllocated? then [SizeAssert(ty, l.size), AlignAssert(ty, l.align)] else []
  }

  function CopyItems(td: ZngurType): seq<Emitted> {
    if Copy in td.wellknownTraits then [CopyAssert(td.ty)] else []
  }

  /** A C++ value field is reached through a bridge named after it. */
  function ValueOf(ty: RustType, v: Option<CppValue>, base: string): Option<CppValue> {
    match v
    case None => None
    case Some(cv) => Some(CppValue(MangleName(TypeToString(ty) + "_cpp_value_" + cv.field, base), cv.cppType))
  }

  function ValueItems(ty: RustType, v: Option<CppValue>, base: string): seq<Emitted> {
    match v
    case None => []
    case Some(cv) => Exports([MangleName(TypeToString(ty) + "_cpp_value_" + cv.field, base)])
  }

  /** `Box<dyn Trait>` can be built from a C++ implementation of `Trait`. */
  function FromTrait(ty: RustType): Option<RustTrait> {
    match ty
    case Boxed(Dyn(tr, _)) => Some(tr)
    case _ => None
  }

  /** `dyn Trait` can be borrowed from a C++ implementation of `Trait`. */
  function FromTraitRef(ty: RustType): Option<RustTrait> {
    match ty
    case Dyn(tr, _) => Some(tr)
    case _ => None
  }

  /** A `Box<dyn Fn…>` whose closure trait has no definition yet. */
  predicate NeedsFnBuilder(ty: RustType, known: seq<RustTrait>) {
    FromTrait(ty).Some? && FromTrait(ty).value.FnTrait? && FromTrait(ty).value !in known
  }

  function FnBuilderName(tr: RustTrait, base: string): string
    requires tr.FnTrait?
  {
    MangleName(Join(TypesToStrings(tr.inputs + [tr.output]), ", "), base)
  }

  function FromTraitItems(ty: RustType, known: seq<RustTrait>, base: string): seq<Emitted> {
    if NeedsFnBuilder(ty, known) then Exports([FnBuilderName(FromTrait(ty).value, base)]) else []
  }

  function NewTraitDefs(ty: RustType, known: seq<RustTrait>, base: string): seq<Entry<RustTrait, CppTraitDef>>
    requires Expressible(ty)
  {
    if NeedsFnBuilder(ty, known) then
      var tr := FromTrait(ty).value;
      assert ty.Boxed? && ty.inner.Dyn? && Expressible(ty.inner);
      [Entry(tr, FnTraitDef(C.CppFnSig(FnBuilderName(tr, base), TypesIntoCpp(tr.inputs), TypeIntoCpp(tr.output))))]
    else []
  }

  /** A closure trait is registered only when a `Box<dyn Fn…>` names it and
      it is not registered yet, and then exactly once. */
  lemma NewTraitDefsShape(ty: RustType, known: seq<RustTrait>, base: string)
    requires Expressible(ty)
    ensures var r := NewTraitDefs(ty, known, base);
            (|r| == 1 <==> NeedsFnBuilder(ty, known)) && (|r| == 0 <==> !NeedsFnBuilder(ty, known)) &&
            (|r| == 1 ==> r[0].key == FromTrait(ty).value && r[0].key.FnTrait? && r[0].key !in known && r[0].value.FnTraitDef?)
  {
  }

  /** `from_trait` is set exactly for `Box<dyn Trait>` and `from_trait_ref`
      exactly for `dyn Trait`. */
  lemma FromTraitShape(ty: RustType)
    ensures FromTrait(ty).Some? <==> ty.Boxed? && ty.inner.Dyn?
    ensures FromTrait(ty).Some? ==> FromTrait(ty).value == ty.inner.tr
    ensures FromTraitRef(ty).Some? <==> ty.Dyn?
    ensures FromTraitRef(ty).Some? ==> FromTraitRef(ty).value == ty.tr
  {
  }

  // ---- one type ----

  /** What `render` needs of a type: a layout the Rust file has a shim for,
      types C++ can spell, and every field at a known offset. */
  predicate TypeRenderable(td: ZngurType) {
    td.layout.Some? && !td.layout.value.Conservative? &&
    Expressible(td.ty) && CtorsExpressible(td.constructors) && FieldsPlaced(td.fields) &&
    MethodsExpressible(td.methods)
  }

  function TypeDefOf(td: ZngurType, base: string, sha256: string -> Digest): TypeDefinition
    requires TypeRenderable(td)
  {
    TypeDefinition(
      TypeIntoCpp(td.ty),
      ShimLayout(td.ty, td.layout.value, base),
      CtorSigs(td.ty, td.constructors, base) + TupleSigs(td.ty, base),
      FieldDatas(td.fields),
      CtorMethods(td.ty, td.constructors, base) + MethodMethods(td.ty, td.methods, base, sha256),
      WellknownDatas(td.ty, td.wellknownTraits, base),
      ValueOf(td.ty, td.cppValue, base),
      td.cppRef,
      FromTrait(td.ty),
      FromTraitRef(td.ty))
  }

  /** The declarations a type adds to the Rust file, in the order `render`
      writes them. */
  function TypeItems(td: ZngurType, base: string, sha256: string -> Digest, p: bool, known: seq<RustTrait>): seq<Emitted>
    requires TypeRenderable(td)
  {
    LayoutAssertItems(td.ty, td.layout.value) + CopyItems(td) + CtorItems(CtorLinks(td.ty, td.constructors, base)) +
    FieldItems(td.ty, td.fields) + TupleItems(td.ty, base) + WellknownItems(WellknownDatas(td.ty, td.wellknownTraits, base)) +
    MethodItems(MethodMethods(td.ty, td.methods, base, sha256), p) + ShimItems(td.ty, td.layout.value, base) +
    ValueItems(td.ty, td.cppValue, base) + FromTraitItems(td.ty, known, base)
  }

  /** The unit type `render` adds itself: zero-sized and `Copy`. */
  const UNIT_TYPE: ZngurType := ZngurType(UNIT, Some(ZERO_SIZED_TYPE), [Copy], [], [], [], None, None)

  // ---- the steps of one type ----

  /** The constructor loop of `render`. */
  method RenderConstructors(rf: RustFile, ty: RustType, cs: seq<ZngurConstructor>)
    returns (methods: seq<CppMethod>, sigs: seq<C.CppFnSig>)
    requires rf.Valid() && Expressible(ty) && CtorsExpressible(cs)
    modifies rf
    ensures rf.Valid() && rf.panicToException == old(rf.panicToException) && rf.manglingBase == old(rf.manglingBase)
    ensures methods == CtorMethods(ty, cs, rf.manglingBase) && sigs == CtorSigs(ty, cs, rf.manglingBase)
    ensures rf.items == old(rf.items) + CtorItems(CtorLinks(ty, cs, rf.manglingBase))
  {
    methods, sigs := [], [];
    ghost var start := rf.items;
    ghost var links: seq<string> := [];
    for i := 0 to |cs|
      invariant rf.Valid() && rf.panicToException == old(rf.panicToException) && rf.manglingBase == old(rf.manglingBase)
      invariant CtorsExpressible(cs[..i])
      invariant methods == CtorMethods(ty, cs[..i], rf.manglingBase) && sigs == CtorSigs(ty, cs[..i], rf.manglingBase)
      invariant links == CtorLinks(ty, cs[..i], rf.manglingBase)
      invariant rf.items == start + CtorItems(links)
    {
      methods, sigs, links := RenderConstructorPass(rf, ty, cs, i, methods, sigs, links, start);
    }
    assert cs[..|cs|] == cs;
  }

  /** One pass of the constructor loop. */
  method RenderConstructorPass(rf: RustFile, ty: RustType, cs: seq<ZngurConstructor>, i: nat,
                               methods: seq<CppMethod>, sigs: seq<C.CppFnSig>, ghost links: seq<string>, ghost start: seq<Emitted>)
    returns (methods': seq<CppMethod>, sigs': seq<C.CppFnSig>, ghost links': seq<string>)
    requires rf.Valid() && Expressible(ty) && CtorsExpressible(cs) && i < |cs|
    requires methods == CtorMethods(ty, cs[..i], rf.manglingBase) && sigs == CtorSigs(ty, cs[..i], rf.manglingBase)
    requires links == CtorLinks(ty, cs[..i], rf.manglingBase)
    requires rf.items == start + CtorItems(links)
    modifies rf
    ensures rf.Valid() && rf.panicToException == old(rf.panicToException) && rf.manglingBase == old(rf.manglingBase)
    ensures CtorsExpressible(cs[..i + 1])
    ensures methods' == CtorMethods(ty, cs[..i + 1], rf.manglingBase) && sigs' == CtorSigs(ty, cs[..i + 1], rf.manglingBase)
    ensures links' == CtorLinks(ty, cs[..i + 1], rf.manglingBase)
    ensures rf.items == start + CtorItems(links')
  {
    CtorsStep(ty, cs, i, rf.manglingBase);
    var ms, ss, link := RenderConstructor(rf, ty, cs[i]);
    methods' := methods + ms;
    sigs' := sigs + ss;
    links' := links + [link];
    CtorItemsStep(links, link, start);
  }

  lemma CtorItemsStep(links: seq<string>, link: string, start: seq<Emitted>)
    ensures start + CtorItems(links) + Exports([link, link + "_check"]) == start + CtorItems(links + [link])
  {
    assert (links + [link])[..|links|] == links;
  }

  /** One constructor: a variant gives a static member function and its
      `matches_` test, a struct constructor a C++ constructor. */
  method RenderConstructor(rf: RustFile, ty: RustType, c: ZngurConstructor)
    returns (methods: seq<CppMethod>, sigs: seq<C.CppFnSig>, ghost link: string)
    requires rf.Valid() && Expressible(ty) && CtorExpressible(c)
    modifies rf
    ensures rf.Valid() && rf.panicToException == old(rf.panicToException) && rf.manglingBase == old(rf.manglingBase)
    ensures methods == CtorMethodsOf(ty, c, rf.manglingBase) && sigs == CtorSigsOf(ty, c, rf.manglingBase)
    ensures link == MangleName(CtorRustName(ty, c), rf.manglingBase)
    ensures rf.items == old(rf.items) + Exports([link, link + "_check"])
  {
    var names := rf.AddConstructor(CtorRustName(ty, c));
    link := names.ctorName;
    methods, sigs := [], [];
    if c.name.Some? {
      var make := CppMethod(C.HandleKeyword(c.name.value), Static, C.CppFnSig(names.ctorName, NamedIntoCpp(c.inputs), TypeIntoCpp(ty)));
      var check := CppMethod("matches_" + c.name.value, ByRef(Not), C.CppFnSig(names.matchCheck, [IntoRef(TypeIntoCpp(ty))], Scalar("uint8_t")));
      methods := [make, check];
    } else {
      sigs := [C.CppFnSig(names.ctorName, NamedIntoCpp(c.inputs), TypeIntoCpp(ty))];
    }
  }

  /** One more constructor extends the three results by its own part. */
  lemma CtorsStep(ty: RustType, cs: seq<ZngurConstructor>, i: nat, base: string)
    requires Expressible(ty) && CtorsExpressible(cs) && i < |cs|
    ensures CtorMethods(ty, cs[..i + 1], base) == CtorMethods(ty, cs[..i], base) + CtorMethodsOf(ty, cs[i], base)
    ensures CtorSigs(ty, cs[..i + 1], base) == CtorSigs(ty, cs[..i], base) + CtorSigsOf(ty, cs[i], base)
    ensures CtorLinks(ty, cs[..i + 1], base) == CtorLinks(ty, cs[..i], base) + [MangleName(CtorRustName(ty, cs[i]), base)]
  {
    assert cs[..i + 1][..i] == cs[..i];
  }

  /** The field loop of `render`. */
  method RenderFields(rf: RustFile, ty: RustType, fs: seq<ZngurField>) returns (fields: seq<FieldData>)
    requires rf.Valid() && FieldsPlaced(fs)
    modifies rf
    ensures rf.Valid() && rf.panicToException == old(rf.panicToException) && rf.manglingBase == old(rf.manglingBase)
    ensures fields == FieldDatas(fs)
    ensures rf.items == old(rf.items) + FieldItems(ty, fs)
  {
    fields := [];
    ghost var start := rf.items;
    for i := 0 to |fs|
      invariant rf.Valid() && rf.panicToException == old(rf.panicToException) && rf.manglingBase == old(rf.manglingBase)
      invariant fields == FieldDatas(fs[..i])
      invariant rf.items == start + FieldItems(ty, fs[..i])
    {
      assert fs[..i + 1][..i] == fs[..i];
      rf.AddFieldAssertions(fs[i], ty);
      fields := fields + [FieldData(fs[i].name, fs[i].ty, fs[i].offset.value)];
    }
    assert fs[..|fs|] == fs;
  }

  /** The well-known trait loop of `render`. */
  method RenderWellknown(rf: RustFile, ty: RustType, ts: seq<ZngurWellknownTrait>) returns (data: seq<ZngurWellknownTraitData>)
    requires rf.Valid()
    modifies rf
    ensures rf.Valid() && rf.panicToException == old(rf.panicToException) && rf.manglingBase == old(rf.manglingBase)
    ensures data == WellknownDatas(ty, ts, rf.manglingBase)
    ensures rf.items == old(rf.items) + WellknownItems(data)
  {
    data := [];
    ghost var start := rf.items;
    for i := 0 to |ts|
      invariant rf.Valid() && rf.panicToException == old(rf.panicToException) && rf.manglingBase == old(rf.manglingBase)
      invariant data == WellknownDatas(ty, ts[..i], rf.manglingBase)
      invariant rf.items == start + WellknownItems(data)
    {
      data := RenderWellknownTrait(rf, ty, ts, i, data, start);
    }
    assert ts[..|ts|] == ts;
  }

  /** One pass of the well-known trait loop: the trait at `i` is rendered
      and its data appended. */
  method RenderWellknownTrait(rf: RustFile, ty: RustType, ts: seq<ZngurWellknownTrait>, i: nat,
                              data: seq<ZngurWellknownTraitData>, ghost start: seq<Emitted>)
    returns (data': seq<ZngurWellknownTraitData>)
    requires rf.Valid() && i < |ts|
    requires data == WellknownDatas(ty, ts[..i], rf.manglingBase)
    requires rf.items == start + WellknownItems(data)
    modifies rf
    ensures rf.Valid() && rf.panicToException == old(rf.panicToException) && rf.manglingBase == old(rf.manglingBase)
    ensures data' == WellknownDatas(ty, ts[..i + 1], rf.manglingBase)
    ensures rf.items == start + WellknownItems(data')
  {
    ghost var before := rf.items;
    var d := rf.AddWellknownTrait(ty, ts[i]);
    WellknownAdded(ty, ts[i], rf.manglingBase, d, before, rf.items);
    data' := data + [d];
    WellknownStep(ty, ts, i, rf.manglingBase, data, d, start);
  }

  /** What `add_wellknown_trait` writes is the glue of the data it returns. */
  lemma WellknownAdded(ty: RustType, tr: ZngurWellknownTrait, base: string, d: ZngurWellknownTraitData,
                       before: seq<Emitted>, after: seq<Emitted>)
    requires d == WellknownData(ty, tr, base)
    requires tr.Drop? ==> after == before + Exports([d.dropInPlace])
    requires tr.Debug? ==> after == before + Exports([d.prettyPrint, d.debugPrint])
    requires tr.Unsized? || tr.Copy? ==> after == before
    ensures after == before + WellknownItemsOf(d)
  {
    if tr.Unsized? || tr.Copy? {
      SeqUtil.AppendEmpty(before);
    }
  }

  lemma WellknownStep(ty: RustType, ts: seq<ZngurWellknownTrait>, i: nat, base: string,
                      data: seq<ZngurWellknownTraitData>, d: ZngurWellknownTraitData, start: seq<Emitted>)
    requires i < |ts| && data == WellknownDatas(ty, ts[..i], base) && d == WellknownData(ty, ts[i], base)
    ensures data + [d] == WellknownDatas(ty, ts[..i + 1], base)
    ensures start + WellknownItems(data) + WellknownItemsOf(d) == start + WellknownItems(data + [d])
  {
    WellknownDatasSnoc(ty, ts, i, base);
    WellknownItemsSnoc(data, d);
    SeqUtil.AppendAssoc(start, WellknownItems(data), WellknownItemsOf(d));
  }

  lemma WellknownDatasSnoc(ty: RustType, ts: seq<ZngurWellknownTrait>, i: nat, base: string)
    requires i < |ts|
    ensures WellknownDatas(ty, ts[..i + 1], base) == WellknownDatas(ty, ts[..i], base) + [WellknownData(ty, ts[i], base)]
  {
    assert ts[..i + 1][..i] == ts[..i];
  }

  lemma WellknownItemsSnoc(data: seq<ZngurWellknownTraitData>, d: ZngurWellknownTraitData)
    ensures WellknownItems(data + [d]) == WellknownItems(data) + WellknownItemsOf(d)
  {
    assert (data + [d])[..|data|] == data;
  }

  lemma MethodsStep(ty: RustType, ms: seq<ZngurMethodDetails>, i: nat, base: string, sha256: string -> Digest)
    requires Expressible(ty) && MethodsExpressible(ms) && i < |ms|
    ensures MethodsExpressible(ms[..i]) && MethodsExpressible(ms[..i + 1]) && MethodExpressible(ms[i])
    ensures MethodMethods(ty, ms[..i + 1], base, sha256) ==
              MethodMethods(ty, ms[..i], base, sha256) + [CppMethod(C.HandleKeyword(ms[i].data.name), ms[i].data.receiver, MethodSig(ty, ms[i], base, sha256))]
  {
    assert ms[..i + 1][..i] == ms[..i];
  }

  /** The method loop of `render`. */
  method RenderMethods(rf: RustFile, ty: RustType, ms: seq<ZngurMethodDetails>, sha256: string -> Digest) returns (methods: seq<CppMethod>)
    requires rf.Valid() && Expressible(ty) && MethodsExpressible(ms)
    modifies rf
    ensures rf.Valid() && rf.panicToException == old(rf.panicToException) && rf.manglingBase == old(rf.manglingBase)
    ensures methods == MethodMethods(ty, ms, rf.manglingBase, sha256)
    ensures rf.items == old(rf.items) + MethodItems(methods, rf.panicToException)
  {
    methods := [];
    ghost var start := rf.items;
    for i := 0 to |ms|
      invariant rf.Valid() && rf.panicToException == old(rf.panicToException) && rf.manglingBase == old(rf.manglingBase)
      invariant MethodsExpressible(ms[..i])
      invariant methods == MethodMethods(ty, ms[..i], rf.manglingBase, sha256)
      invariant rf.items == start + MethodItems(methods, rf.panicToException)
    {
      methods := RenderMethodPass(rf, ty, ms, i, sha256, methods, start);
    }
    assert ms[..|ms|] == ms;
  }

  /** One pass of the method loop. */
  method RenderMethodPass(rf: RustFile, ty: RustType, ms: seq<ZngurMethodDetails>, i: nat, sha256: string -> Digest,
                          methods: seq<CppMethod>, ghost start: seq<Emitted>)
    returns (methods': seq<CppMethod>)
    requires rf.Valid() && Expressible(ty) && MethodsExpressible(ms) && i < |ms|
    requires methods == MethodMethods(ty, ms[..i], rf.manglingBase, sha256)
    requires rf.items == start + MethodItems(methods, rf.panicToException)
    modifies rf
    ensures rf.Valid() && rf.panicToException == old(rf.panicToException) && rf.manglingBase == old(rf.manglingBase)
    ensures MethodsExpressible(ms[..i + 1]) && methods' == MethodMethods(ty, ms[..i + 1], rf.manglingBase, sha256)
    ensures rf.items == start + MethodItems(methods', rf.panicToException)
  {
    MethodsStep(ty, ms, i, rf.manglingBase, sha256);
    var m := RenderMethod(rf, ty, ms[i], sha256);
    methods' := methods + [m];
    MethodItemsStep(methods, m, rf.panicToException, start);
  }

  lemma MethodItemsStep(methods: seq<CppMethod>, m: CppMethod, p: bool, start: seq<Emitted>)
    ensures start + MethodItems(methods, p) + [Export(m.sig.linkName, p)] == start + MethodItems(methods + [m], p)
  {
    assert (methods + [m])[..|methods|] == methods;
  }

  /** One method: exported through `add_function` under its Rust path, with
      the receiver among the inputs and the deref mutability passed on. */
  method RenderMethod(rf: RustFile, ty: RustType, md: ZngurMethodDetails, sha256: string -> Digest) returns (m: CppMethod)
    requires rf.Valid() && Expressible(ty) && MethodExpressible(md)
    modifies rf
    ensures rf.Valid() && rf.panicToException == old(rf.panicToException) && rf.manglingBase == old(rf.manglingBase)
    ensures m == CppMethod(C.HandleKeyword(md.data.name), md.data.receiver, MethodSig(ty, md, rf.manglingBase, sha256))
    ensures rf.items == old(rf.items) + [Export(m.sig.linkName, rf.panicToException)]
  {
    RealInputsExpressible(md.data, ty);
    var inputs := RealInputsOfMethod(md.data, ty);
    var dm := if md.deref.Some? then Some(md.deref.value.m) else None;
    var sig := rf.AddFunction(MethodRustName(ty, md), inputs, md.data.output, dm, sha256);
    m := CppMethod(C.HandleKeyword(md.data.name), md.data.receiver, sig);
  }

  /** The static checks that open a type: size and alignment for a stack
      layout, then `Copy` when the type claims it. */
  method RenderLayoutAsserts(rf: RustFile, td: ZngurType)
    requires rf.Valid() && td.layout.Some?
    modifies rf
    ensures rf.Valid() && rf.panicToException == old(rf.panicToException) && rf.manglingBase == old(rf.manglingBase)
    ensures rf.items == old(rf.items) + LayoutAssertItems(td.ty, td.layout.value) + CopyItems(td)
  {
    var l := td.layout.value;
    if l.StackAllocated? {
      rf.AddStaticLayoutAsserts(td.ty, l.size, l.align);
    }
    if Copy in td.wellknownTraits {
      rf.AddStaticIsCopyAssert(td.ty);
    }
  }

  /** The constructor a non-empty tuple gets from its fields. */
  method RenderTuple(rf: RustFile, ty: RustType) returns (sigs: seq<C.CppFnSig>)
    requires rf.Valid() && Expressible(ty)
    modifies rf
    ensures rf.Valid() && rf.panicToException == old(rf.panicToException) && rf.manglingBase == old(rf.manglingBase)
    ensures sigs == TupleSigs(ty, rf.manglingBase)
    ensures rf.items == old(rf.items) + TupleItems(ty, rf.manglingBase)
  {
    sigs := [];
    if ty.Tuple? && |ty.elems| > 0 {
      var name := rf.AddTupleConstructor(ty.elems);
      sigs := [C.CppFnSig(name, TypesIntoCpp(ty.elems), TypeIntoCpp(ty))];
    }
  }

  /** The layout the header gets, with the heap shims it needs. */
  method RenderLayoutShim(rf: RustFile, ty: RustType, l: LayoutPolicy) returns (cpp: CppLayoutPolicy)
    requires rf.Valid() && !l.Conservative?
    modifies rf
    ensures rf.Valid() && rf.panicToException == old(rf.panicToException) && rf.manglingBase == old(rf.manglingBase)
    ensures cpp == ShimLayout(ty, l, rf.manglingBase)
    ensures rf.items == old(rf.items) + ShimItems(ty, l, rf.manglingBase)
  {
    cpp := rf.AddLayoutPolicyShim(ty, l);
  }

  /** The C++ value field, renamed to its bridge. */
  method RenderValue(rf: RustFile, ty: RustType, v: Option<CppValue>) returns (r: Option<CppValue>)
    requires rf.Valid()
    modifies rf
    ensures rf.Valid() && rf.panicToException == old(rf.panicToException) && rf.manglingBase == old(rf.manglingBase)
    ensures r == ValueOf(ty, v, rf.manglingBase)
    ensures rf.items == old(rf.items) + ValueItems(ty, v, rf.manglingBase)
  {
    r := None;
    if v.Some? {
      var name := rf.AddCppValueBridge(ty, v.value.field);
      r := Some(CppValue(name, v.value.cppType));
    }
  }

  /** A `Box<dyn Fn…>` whose closure trait is not yet known gets a builder,
      recorded as a new trait definition. */
  method RenderFromTrait(rf: RustFile, ty: RustType, known: seq<RustTrait>) returns (defs: seq<Entry<RustTrait, CppTraitDef>>)
    requires rf.Valid() && Expressible(ty)
    modifies rf
    ensures rf.Valid() && rf.panicToException == old(rf.panicToException) && rf.manglingBase == old(rf.manglingBase)
    ensures defs == NewTraitDefs(ty, known, rf.manglingBase)
    ensures rf.items == old(rf.items) + FromTraitItems(ty, known, rf.manglingBase)
  {
    defs := [];
    if NeedsFnBuilder(ty, known) {
      var tr := FromTrait(ty).value;
      assert ty.Boxed? && ty.inner.Dyn? && Expressible(ty.inner);
      var name := rf.AddBuilderForDynFn(tr.inputs, tr.output);
      defs := [Entry(tr, FnTraitDef(C.CppFnSig(name, TypesIntoCpp(tr.inputs), TypeIntoCpp(tr.output))))];
    }
  }

  /** Appending the pieces one by one appends their concatenation. */
  lemma ConcatShift<T>(o: seq<T>, a: seq<T>, b: seq<T>, c: seq<T>, d: seq<T>, e: seq<T>, f: seq<T>, g: seq<T>, h: seq<T>, i: seq<T>, j: seq<T>)
    ensures o + a + b + c + d + e + f + g + h + i + j == o + (a + b + c + d + e + f + g + h + i + j)
  {
  }

  /** One type of the `render` loop: every step in the order the source
      takes them, giving the type's definition, its Rust declarations, and
      the closure trait it adds, if any. */
  method RenderType(rf: RustFile, td: ZngurType, known: seq<RustTrait>, sha256: string -> Digest)
    returns (def: TypeDefinition, defs: seq<Entry<RustTrait, CppTraitDef>>)
    requires rf.Valid() && TypeRenderable(td)
    modifies rf
    ensures rf.Valid() && rf.panicToException == old(rf.panicToException) && rf.manglingBase == old(rf.manglingBase)
    ensures def == TypeDefOf(td, rf.manglingBase, sha256)
    ensures defs == NewTraitDefs(td.ty, known, rf.manglingBase)
    ensures rf.items == old(rf.items) + TypeItems(td, rf.manglingBase, sha256, rf.panicToException, known)
  {
    ghost var o := rf.items;
    RenderLayoutAsserts(rf, td);
    var ctorMethods, ctorSigs := RenderConstructors(rf, td.ty, td.constructors);
    var fields := RenderFields(rf, td.ty, td.fields);
    var tupleSigs := RenderTuple(rf, td.ty);
    var wellknown := RenderWellknown(rf, td.ty, td.wellknownTraits);
    var methods := RenderMethods(rf, td.ty, td.methods, sha256);
    var layout := RenderLayoutShim(rf, td.ty, td.layout.value);
    var value := RenderValue(rf, td.ty, td.cppValue);
    defs := RenderFromTrait(rf, td.ty, known);
    def := TypeDefinition(TypeIntoCpp(td.ty), layout, ctorSigs + tupleSigs, fields, ctorMethods + methods,
                          wellknown, value, td.cppRef, FromTrait(td.ty), FromTraitRef(td.ty));
    ConcatShift(o, LayoutAssertItems(td.ty, td.layout.value), CopyItems(td),
                CtorItems(CtorLinks(td.ty, td.constructors, rf.manglingBase)), FieldItems(td.ty, td.fields),
                TupleItems(td.ty, rf.manglingBase), WellknownItems(wellknown), MethodItems(methods, rf.panicToException),
                ShimItems(td.ty, td.layout.value, rf.manglingBase), ValueItems(td.ty, td.cppValue, rf.manglingBase),
                FromTraitItems(td.ty, known, rf.manglingBase));
  }
}
