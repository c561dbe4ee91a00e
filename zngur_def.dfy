/**
 * The data model of a Zngur specification (`zngur-def`): Rust types and traits
 * as the `.zng` language describes them, the per-type declarations, and the
 * `Display` text of types, traits and paths.
 */
module ZngurDef {
  import opened Wrappers
  import opened StrUtil

  datatype Mutability = Mut | Not

  /** How a method takes `self`. */
  datatype MethodReceiver = Static | ByRef(m: Mutability) | Move

  datatype PrimitiveRustType =
    | Uint(bits: nat)
    | Int(bits: nat)
    | Float(bits: nat)
    | Usize
    | Bool
    | Char
    | Str
    | ZngurCppOpaqueOwnedObject

  /** A named generic argument (`Output = T`) or a named constructor argument. */
  datatype Named = Named(name: string, ty: RustType)

  datatype RustPathAndGenerics = RustPathAndGenerics(path: seq<string>, generics: seq<RustType>, namedGenerics: seq<Named>)

  datatype RustTrait =
    | Normal(pg: RustPathAndGenerics)
    | FnTrait(name: string, inputs: seq<RustType>, output: RustType)

  /** `TypeVar` is the template variable that the template machinery adds to the type language. */
  datatype RustType =
    | Primitive(p: PrimitiveRustType)
    | Ref(m: Mutability, inner: RustType)
    | Raw(m: Mutability, inner: RustType)
    | Boxed(inner: RustType)
    | Slice(inner: RustType)
    | Dyn(tr: RustTrait, bounds: seq<string>)
    | Impl(tr: RustTrait, bounds: seq<string>)
    | Tuple(elems: seq<RustType>)
    | Adt(pg: RustPathAndGenerics)
    | TypeVar(name: string)

  const UNIT: RustType := Tuple([])

  datatype ZngurMethod = ZngurMethod(
    name: string,
    generics: seq<RustType>,
    receiver: MethodReceiver,
    inputs: seq<RustType>,
    output: RustType)

  datatype ZngurFn = ZngurFn(path: RustPathAndGenerics, inputs: seq<RustType>, output: RustType)

  datatype ZngurExternCppFn = ZngurExternCppFn(name: string, inputs: seq<RustType>, output: RustType)

  datatype ZngurExternCppImpl = ZngurExternCppImpl(tr: Option<RustTrait>, ty: RustType, methods: seq<ZngurMethod>)

  datatype ZngurConstructor = ZngurConstructor(name: Option<string>, inputs: seq<Named>)

  datatype ZngurField = ZngurField(name: string, ty: RustType, offset: Option<nat>)

  datatype ZngurWellknownTrait = Debug | Drop | Unsized | Copy

  datatype ZngurWellknownTraitData =
    | DebugData(prettyPrint: string, debugPrint: string)
    | DropData(dropInPlace: string)
    | UnsizedData
    | CopyData

  datatype LayoutPolicy =
    | StackAllocated(size: nat, align: nat)
    | Conservative(size: nat, align: nat)
    | HeapAllocated
    | OnlyByRef

  const ZERO_SIZED_TYPE: LayoutPolicy := StackAllocated(0, 1)

  datatype Deref = Deref(ty: RustType, m: Mutability)

  datatype ZngurMethodDetails = ZngurMethodDetails(data: ZngurMethod, usePath: Option<seq<string>>, deref: Option<Deref>)

  datatype CppValue = CppValue(field: string, cppType: string)

  datatype CppRef = CppRef(cppType: string)

  datatype ZngurType = ZngurType(
    ty: RustType,
    layout: Option<LayoutPolicy>,
    wellknownTraits: seq<ZngurWellknownTrait>,
    methods: seq<ZngurMethodDetails>,
    constructors: seq<ZngurConstructor>,
    fields: seq<ZngurField>,
    cppValue: Option<CppValue>,
    cppRef: Option<CppRef>)

  datatype ZngurTrait = ZngurTrait(tr: RustTrait, methods: seq<ZngurMethod>)

  /** One entry of an insertion-ordered map (`IndexMap`). */
  datatype Entry<K, V> = Entry(key: K, value: V)

  datatype CfgPair = CfgPair(key: string, value: Option<string>)

  datatype ZngurSpec = ZngurSpec(
    imports: seq<string>,
    types: seq<ZngurType>,
    traits: seq<Entry<RustTrait, ZngurTrait>>,
    funcs: seq<ZngurFn>,
    externCppFuncs: seq<ZngurExternCppFn>,
    externCppImpls: seq<ZngurExternCppImpl>,
    additionalIncludes: string,
    convertPanicToException: bool,
    cppIncludeHeaderName: string,
    manglingBase: string,
    cppNamespace: string,
    rustCfg: seq<CfgPair>)

  const EMPTY_SPEC: ZngurSpec := ZngurSpec([], [], [], [], [], [], "", false, "", "", "", [])

  function EmptyType(ty: RustType): ZngurType {
    ZngurType(ty, None, [], [], [], [], None, None)
  }

  function SimpleAdt(path: seq<string>): RustType {
    Adt(RustPathAndGenerics(path, [], []))
  }

  /** `take_assocs`: moves the named generics out of a `Normal` trait. */
  function TakeAssocs(tr: RustTrait): (r: (RustTrait, seq<Named>))
    ensures tr.Normal? ==> r.0.Normal? && r.0.pg.namedGenerics == [] && r.0.pg.path == tr.pg.path
                           && r.0.pg.generics == tr.pg.generics && r.1 == tr.pg.namedGenerics
    ensures tr.FnTrait? ==> r.0 == tr && r.1 == []
  {
    match tr
    case Normal(pg) => (Normal(pg.(namedGenerics := [])), pg.namedGenerics)
    case FnTrait(_, _, _) => (tr, [])
  }

  /** Putting the taken associated types back restores the trait. */
  lemma TakeAssocsRestore(tr: RustTrait)
    ensures var (t, assocs) := TakeAssocs(tr);
            (if t.Normal? then Normal(t.pg.(namedGenerics := assocs)) else t) == tr
  {
  }

  // ---- Display ----

  function PrimitiveToString(p: PrimitiveRustType): string {
    match p
    case Uint(s) => "u" + NatToString(s)
    case Int(s) => "i" + NatToString(s)
    case Float(s) => "f" + NatToString(s)
    case Usize => "usize"
    case Bool => "bool"
    case Char => "char"
    case Str => "str"
    case ZngurCppOpaqueOwnedObject => "ZngurCppOpaqueOwnedObject"
  }

  /** A primitive's display name has at least two characters, and its second
      character is a digit exactly for the sized kinds `u{n}`, `i{n}`, `f{n}`,
      whose tail is the decimal width. */
  lemma PrimitiveDisplayShape(p: PrimitiveRustType)
    ensures var s := PrimitiveToString(p);
            && |s| >= 2
            && (IsDigit(s[1]) <==> p.Uint? || p.Int? || p.Float?)
            && ((p.Uint? || p.Int? || p.Float?) ==> s[1..] == NatToString(p.bits))
  {
    if p.Uint? || p.Int? || p.Float? {
      NatToStringDigits(p.bits);
    }
  }

  /** Different primitives display differently: the name identifies the primitive. */
  lemma PrimitiveDisplayInjective(p: PrimitiveRustType, q: PrimitiveRustType)
    requires PrimitiveToString(p) == PrimitiveToString(q)
    ensures p == q
  {
    PrimitiveDisplayShape(p);
    PrimitiveDisplayShape(q);
    if (p.Uint? && q.Uint?) || (p.Int? && q.Int?) || (p.Float? && q.Float?) {
      NatToStringInjective(p.bits, q.bits);
    }
  }

  /** The path part: every segment but `crate` is preceded by `::`. */
  function SegmentsToString(path: seq<string>): string
    decreases |path|
  {
    if |path| == 0 then "" else (if path[0] != "crate" then "::" else "") + path[0] + SegmentsToString(path[1..])
  }

  function PathToString(pg: RustPathAndGenerics): string
    decreases pg, 2
  {
    SegmentsToString(pg.path)
    + if pg.generics == [] && pg.namedGenerics == [] then ""
      else "::<" + Join(TypesToStrings(pg.generics) + NamedToStrings(pg.namedGenerics), ", ") + ">"
  }

  function TypesToStrings(ts: seq<RustType>): (r: seq<string>)
    ensures |r| == |ts|
    decreases ts, 0
  {
    if |ts| == 0 then [] else [TypeToString(ts[0])] + TypesToStrings(ts[1..])
  }

  function NamedToStrings(ns: seq<Named>): (r: seq<string>)
    ensures |r| == |ns|
    decreases ns, 0
  {
    if |ns| == 0 then [] else [ns[0].name + " = " + TypeToString(ns[0].ty)] + NamedToStrings(ns[1..])
  }

  function TraitToString(tr: RustTrait): string
    decreases tr, 1
  {
    match tr
    case Normal(pg) => PathToString(pg)
    case FnTrait(name, inputs, output) =>
      name + "(" + Join(TypesToStrings(inputs), ", ") + ")"
      + if output != UNIT then " -> " + TypeToString(output) else ""
  }

  function BoundsToString(bounds: seq<string>): string {
    if |bounds| == 0 then "" else "+ " + bounds[0] + BoundsToString(bounds[1..])
  }

  /** The `Display` of a type: each form opens with its own sigil or keyword
      (`&`, `&mut `, `*const `, `*mut `, `Box<`, `(`, `[`, `dyn `, `impl `),
      the bracketed ones close with the matching bracket, and a type variable
      is its bare name. */
  function TypeToString(t: RustType): (r: string)
    ensures t.Ref? ==> StartsWith(r, if t.m.Mut? then "&mut " else "&")
    ensures t.Raw? ==> StartsWith(r, if t.m.Mut? then "*mut " else "*const ")
    ensures t.Boxed? ==> StartsWith(r, "Box<") && EndsWith(r, ">")
    ensures t.Tuple? ==> StartsWith(r, "(") && EndsWith(r, ")")
    ensures t.Slice? ==> StartsWith(r, "[") && EndsWith(r, "]")
    ensures t.Dyn? ==> StartsWith(r, "dyn ")
    ensures t.Impl? ==> StartsWith(r, "impl ")
    ensures t.TypeVar? ==> r == t.name
    decreases t, 1
  {
    match t
    case Primitive(p) => PrimitiveToString(p)
    case Ref(Not, ty) => Framed("&", TypeToString(ty), ""); "&" + TypeToString(ty)
    case Ref(Mut, ty) => Framed("&mut ", TypeToString(ty), ""); "&mut " + TypeToString(ty)
    case Raw(Not, ty) => Framed("*const ", TypeToString(ty), ""); "*const " + TypeToString(ty)
    case Raw(Mut, ty) => Framed("*mut ", TypeToString(ty), ""); "*mut " + TypeToString(ty)
    case Boxed(ty) => Framed("Box<", TypeToString(ty), ">"); "Box<" + TypeToString(ty) + ">"
    case Tuple(v) => Framed("(", Join(TypesToStrings(v), ", "), ")"); "(" + Join(TypesToStrings(v), ", ") + ")"
    case Adt(pg) => PathToString(pg)
    case Dyn(tr, bounds) => Framed("dyn ", TraitToString(tr) + BoundsToString(bounds), ""); "dyn " + TraitToString(tr) + BoundsToString(bounds)
    case Impl(tr, bounds) => Framed("impl ", TraitToString(tr) + BoundsToString(bounds), ""); "impl " + TraitToString(tr) + BoundsToString(bounds)
    case Slice(s) => Framed("[", TypeToString(s), "]"); "[" + TypeToString(s) + "]"
    case TypeVar(name) => name
  }

  /** A text between an opening and a closing part starts and ends with them. */
  lemma Framed(open: string, x: string, close: string)
    ensures StartsWith(open + x + close, open) && EndsWith(open + x + close, close)
    ensures StartsWith(open + x, open)
  {
    assert (open + x + close)[..|open|] == open;
    assert (open + x + close)[|open + x + close| - |close|..] == close;
    assert (open + x)[..|open|] == open;
  }

  /** A path not rooted at `crate` displays as an absolute path; one rooted at `crate` displays it bare. */
  lemma PathDisplayRoot(pg: RustPathAndGenerics)
    requires |pg.path| > 0
    ensures pg.path[0] != "crate" ==> StartsWith(PathToString(pg), "::" + pg.path[0])
    ensures pg.path[0] == "crate" ==> StartsWith(PathToString(pg), "crate")
  {
    var rest := SegmentsToString(pg.path[1..]) + PathToString(pg)[|SegmentsToString(pg.path)|..];
    if pg.path[0] != "crate" {
      assert PathToString(pg) == "::" + pg.path[0] + rest;
    } else {
      assert PathToString(pg) == "crate" + rest;
    }
  }

  predicate NoChar(s: string, c: char) { forall i :: 0 <= i < |s| ==> s[i] != c }

  lemma {:induction false} SegmentsNoChar(path: seq<string>, c: char)
    requires c != ':'
    requires forall k :: 0 <= k < |path| ==> NoChar(path[k], c)
    ensures NoChar(SegmentsToString(path), c)
    decreases |path|
  {
    if |path| > 0 {
      SegmentsNoChar(path[1..], c);
    }
  }

  /** Without generics the path text has no `<`: the turbofish is written only when there are generics. */
  lemma PathWithoutGenericsHasNoAngle(pg: RustPathAndGenerics)
    requires pg.generics == [] && pg.namedGenerics == []
    requires forall k :: 0 <= k < |pg.path| ==> NoChar(pg.path[k], '<')
    ensures NoChar(PathToString(pg), '<')
  {
    SegmentsNoChar(pg.path, '<');
  }

  /** With any generic argument, the path text ends in `>`. */
  lemma PathWithGenericsEndsInAngle(pg: RustPathAndGenerics)
    requires pg.generics != [] || pg.namedGenerics != []
    ensures EndsWith(PathToString(pg), ">")
  {
  }

  /** A `Fn` trait with unit output is written without an arrow and ends with `)`. */
  lemma FnTraitUnitOutput(name: string, inputs: seq<RustType>)
    ensures TraitToString(FnTrait(name, inputs, UNIT)) == name + "(" + Join(TypesToStrings(inputs), ", ") + ")"
  {
  }

  /** Display of the types the generated examples name. */
  lemma DisplayUnitAndRefs()
    ensures TypeToString(UNIT) == "()"
    ensures TypeToString(Ref(Not, Primitive(Str))) == "&str"
    ensures TypeToString(Ref(Mut, Primitive(Bool))) == "&mut bool"
  {
  }

  lemma DisplayCratePath()
    ensures TypeToString(SimpleAdt(["crate", "Greeter"])) == "crate::Greeter"
  {
    assert SegmentsToString(["Greeter"]) == "::Greeter";
  }

  lemma DisplayGenericPath()
    ensures TypeToString(Adt(RustPathAndGenerics(["std", "vec", "Vec"], [Primitive(Int(32))], []))) == "::std::vec::Vec::<i32>"
  {
    DisplayI32();
    DisplayStdVecPath();
    assert TypesToStrings([Primitive(Int(32))]) == [TypeToString(Primitive(Int(32)))] + TypesToStrings([]);
  }

  lemma DisplayI32()
    ensures TypeToString(Primitive(Int(32))) == "i32"
  {
    assert NatToString(32) == "32" by { assert NatToString(3) == "3"; }
  }

  lemma DisplayStdVecPath()
    ensures SegmentsToString(["std", "vec", "Vec"]) == "::std::vec::Vec"
  {
    assert SegmentsToString(["Vec"]) == "::Vec";
    assert ["std", "vec", "Vec"][1..] == ["vec", "Vec"];
    assert ["vec", "Vec"][1..] == ["Vec"];
  }
}
