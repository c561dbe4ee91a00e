/**
 * How the generator names a Rust type on the C++ side (the `IntoCpp` impls of
 * zngur-generator/src/rust.rs): builtin scalars become C scalar names, raw
 * pointers to builtins become C pointers, everything else becomes a template
 * of the `rust` namespace (`rust::Box<T>`, `rust::Ref<T>`, `rust::Tuple<…>`),
 * and named generic arguments follow the positional ones, sorted by name.
 */
module IntoCpp {
  import opened Wrappers
  import opened StrUtil
  import opened ZngurDef
  import C = CppTypes

  // ---- the types the conversion is defined for ----

  /** The conversion panics on `impl Trait` and on an unbound template
      variable, has no case for `char`, and accepts only 32- and 64-bit floats. */
  predicate Expressible(t: RustType)
    decreases t, 1
  {
    match t
    case Primitive(p) => !p.Char? && (p.Float? ==> p.bits == 32 || p.bits == 64)
    case Ref(_, x) => Expressible(x)
    case Raw(_, x) => Expressible(x)
    case Boxed(x) => Expressible(x)
    case Slice(x) => Expressible(x)
    case Dyn(tr, _) => TraitExpressible(tr)
    case Impl(_, _) => false
    case Tuple(es) => forall i | 0 <= i < |es| :: Expressible(es[i])
    case Adt(pg) => PgExpressible(pg)
    case TypeVar(_) => false
  }

  predicate PgExpressible(pg: RustPathAndGenerics)
    decreases pg, 2
  {
    (forall i | 0 <= i < |pg.generics| :: Expressible(pg.generics[i])) &&
    (forall n | n in pg.namedGenerics :: Expressible(n.ty))
  }

  predicate TraitExpressible(tr: RustTrait)
    decreases tr, 3
  {
    match tr
    case Normal(pg) => PgExpressible(pg)
    case FnTrait(_, inputs, output) =>
      (forall i | 0 <= i < |inputs| :: Expressible(inputs[i])) && Expressible(output)
  }

  // ---- sorting named generics by name ----

  function NameOf(n: Named): string { n.name }

  predicate SortedByName(ns: seq<Named>) { SortedBy(ns, NameOf) }

  /** `sorted_by_key(|x| &x.0)`. */
  function SortByName(ns: seq<Named>): (r: seq<Named>)
    ensures |r| == |ns| && multiset(r) == multiset(ns)
  {
    SortBy(ns, NameOf)
  }

  /** The named generic arguments come out sorted by name and are a
      rearrangement of the given ones. */
  lemma SortByNameSorted(ns: seq<Named>)
    ensures SortedByName(SortByName(ns)) && multiset(SortByName(ns)) == multiset(ns)
  {
    SortBySorted(ns, NameOf);
  }

  // ---- the C++ names ----

  /** A `rust::` path built from one fixed name. */
  function RustNs(name: string): C.CppPath {
    C.CppPath(["rust", name])
  }

  /** `CppType::from` of a text without template arguments. */
  function Bare(text: string): C.CppType {
    C.CppType(C.PathFrom(text), [])
  }

  /** A one-segment C name without arguments (`CppType::from` of a text with
      no `::`, no `<` and no surrounding space; see `PlainIsBare`). */
  function Scalar(text: string): C.CppType {
    C.CppType(C.CppPath([text]), [])
  }

  /** `str::strip_prefix`. */
  function StripPrefix(s: string, p: string): (r: Option<string>)
    ensures r.Some? <==> StartsWith(s, p)
    ensures r.Some? ==> p + r.value == s
  {
    if StartsWith(s, p) then
      assert s == s[..|p|] + s[|p|..];
      Some(s[|p|..])
    else None
  }

  /** The `for_builtin` helper: scalars and raw pointers to them get a plain
      C name; a raw pointer is written as the printed pointee, its leading
      `::` removed, followed by `*` or ` const*`. */
  function ForBuiltin(t: RustType): Option<C.CppType>
    requires Expressible(t)
    decreases t
  {
    match t
    case Primitive(p) =>
      (match p
       case Uint(s) => Some(Scalar("uint" + NatToString(s) + "_t"))
       case Int(s) => Some(Scalar("int" + NatToString(s) + "_t"))
       case Float(s) => if s == 32 then Some(Scalar("float_t")) else Some(Scalar("double_t"))
       case Usize => Some(Scalar("size_t"))
       case Bool => None
       case Str => None
       case Char => assert false; None
       case ZngurCppOpaqueOwnedObject => Some(C.CppType(RustNs("ZngurCppOpaqueOwnedObject"), [])))
    case Raw(m, x) =>
      (match ForBuiltin(x)
       case None => None
       case Some(b) =>
         match StripPrefix(C.TypeToString(b), "::")
         case None => None
         case Some(inner) => Some(Bare(inner + (if m.Mut? then "*" else " const*"))))
    case _ => None
  }

  /** `into_cpp` for a type: one C++ template argument per Rust type
      argument. Primitives take none; a box, reference or slice wraps its
      pointee; a tuple has one per element (the unit type none); an ADT one
      per positional and named generic; a `dyn` its trait and each bound. */
  function TypeIntoCpp(t: RustType): (r: C.CppType)
    requires Expressible(t)
    ensures t.Primitive? ==> r.args == []
    ensures t.Boxed? || t.Ref? || t.Slice? ==> |r.args| == 1 && |r.path.segs| == 2 && r.path.segs[0] == "rust"
    ensures t.Raw? ==> |r.args| <= 1
    ensures t.Tuple? ==> |r.args| == |t.elems|
    ensures t.Adt? ==> |r.args| == |t.pg.generics| + |t.pg.namedGenerics|
    ensures t.Dyn? ==> |r.args| == 1 + |t.bounds|
    decreases t, 1
  {
    match ForBuiltin(t)
    case Some(b) => b
    case None =>
      match t
      case Primitive(p) => if p.Bool? then C.CppType(RustNs("Bool"), []) else C.CppType(RustNs("Str"), [])
      case Boxed(x) => C.CppType(RustNs("Box"), [TypeIntoCpp(x)])
      case Ref(m, x) => C.CppType(RustNs(if m.Mut? then "RefMut" else "Ref"), [TypeIntoCpp(x)])
      case Slice(x) => C.CppType(RustNs("Slice"), [TypeIntoCpp(x)])
      case Raw(m, x) => C.CppType(RustNs(if m.Mut? then "RawMut" else "Raw"), [TypeIntoCpp(x)])
      case Adt(pg) => PgIntoCpp(pg)
      case Tuple(es) =>
        if |es| == 0 then C.CppType(RustNs("Unit"), [])
        else C.CppType(RustNs("Tuple"), TypesIntoCpp(es))
      case Dyn(tr, bounds) =>
        C.CppType(RustNs("Dyn"), [TraitIntoCpp(tr)] + seq(|bounds|, k requires 0 <= k < |bounds| => Bare("rust::" + bounds[k])))
      case Impl(_, _) => assert false; C.CppType(RustNs("Unit"), [])
      case TypeVar(_) => assert false; C.CppType(RustNs("Unit"), [])
  }

  function TypesIntoCpp(ts: seq<RustType>): (r: seq<C.CppType>)
    requires forall i | 0 <= i < |ts| :: Expressible(ts[i])
    ensures |r| == |ts|
    decreases ts, 0
  {
    if |ts| == 0 then [] else [TypeIntoCpp(ts[0])] + TypesIntoCpp(ts[1..])
  }

  /** `into_cpp` for a path with generics: the Rust path under `rust`, the
      positional arguments, then the named ones sorted by name. */
  function PgIntoCpp(pg: RustPathAndGenerics): (r: C.CppType)
    requires PgExpressible(pg)
    ensures r.path == C.FromRustPath(pg.path)
    ensures |r.args| == |pg.generics| + |pg.namedGenerics|
    decreases pg, 2
  {
    var sorted := SortByName(pg.namedGenerics);
    assert forall k | 0 <= k < |sorted| :: sorted[k] in multiset(pg.namedGenerics);
    C.CppType(C.FromRustPath(pg.path),
              TypesIntoCpp(pg.generics) + seq(|sorted|, k requires 0 <= k < |sorted| => TypeIntoCpp(sorted[k].ty)))
  }

  /** `into_cpp` for a trait: a normal trait is its path; a closure trait is
      `rust::Fn…` over its inputs and then its output. */
  function TraitIntoCpp(tr: RustTrait): C.CppType
    requires TraitExpressible(tr)
    decreases tr, 3
  {
    match tr
    case Normal(pg) => PgIntoCpp(pg)
    case FnTrait(name, inputs, output) =>
      C.CppType(C.PathFrom("rust::" + name), TypesIntoCpp(inputs) + [TypeIntoCpp(output)])
  }

  // ---- what the C++ side sees ----

  /** A text with no space at either end is its own trim. */
  lemma TrimPlain(x: string)
    requires |x| > 0 && !IsSpace(x[0]) && !IsSpace(x[|x| - 1])
    ensures Trim(x) == x
  {
    assert TrimStart(x) == x;
  }

  /** A type read from such a text prints as that text after `::`. */
  lemma BareDisplay(x: string)
    requires |x| > 0 && !IsSpace(x[0]) && !IsSpace(x[|x| - 1])
    ensures C.TypeToString(Bare(x)) == "::" + x
  {
    TrimPlain(x);
    C.PathFromRoundTrip(x);
  }

  /** A `rust::` path with one fixed name prints as `::rust::name`. */
  lemma RustNsDisplay(name: string, args: seq<C.CppType>)
    ensures C.PathToString(RustNs(name)) == "::rust::" + name
    ensures args == [] ==> C.TypeToString(C.CppType(RustNs(name), args)) == "::rust::" + name
  {
    assert ["rust", name][1..] == [name];
    assert Join(["rust", name], "::") == "rust" + "::" + name;
  }

  /** A one-segment name prints as `::name`. */
  lemma ScalarDisplay(text: string)
    ensures C.TypeToString(Scalar(text)) == "::" + text
  {
  }

  predicate NoColon(s: string) { forall i | 0 <= i < |s| :: s[i] != ':' }

  lemma NoColonNoSep(name: string)
    requires NoColon(name)
    ensures Split(name, "::") == [name]
  {
    forall j: nat | j <= |name| ensures !OccursAt(name, "::", j) {
      if j + 2 <= |name| {
        assert name[j..j + 2][0] == name[j];
      }
    }
    assert Find(name, "::").None?;
  }

  /** `CppType::from` of a plain one-segment text is that segment. */
  lemma PlainIsBare(text: string)
    requires |text| > 0 && NoColon(text) && !IsSpace(text[0]) && !IsSpace(text[|text| - 1])
    ensures Bare(text) == Scalar(text)
  {
    TrimPlain(text);
    NoColonNoSep(text);
  }

  /** `CppPath::from("rust::name")` is the two-segment path, for a name
      without `:` and without surrounding space (a marker bound, a closure
      trait name, the opaque object class). */
  lemma PathFromRust(name: string)
    requires |name| > 0 && NoColon(name) && !IsSpace(name[|name| - 1])
    ensures C.PathFrom("rust::" + name) == RustNs(name)
  {
    var s := "rust::" + name;
    TrimPlain(s);
    assert OccursAt(s, "::", 4);
    forall j: nat | j < 4 ensures !OccursAt(s, "::", j) {
      assert s[j] != ':';
    }
    assert Find(s, "::") == Some(4);
    assert s[..4] == "rust";
    assert s[6..] == name;
    NoColonNoSep(name);
    assert Split(s, "::") == ["rust"] + Split(name, "::");
  }

  /** Printed builtin names: a `::`, then a text with no space at either end. */
  predicate BuiltinPrinted(d: string) {
    |d| > 2 && d[..2] == "::" && !IsSpace(d[2]) && !IsSpace(d[|d| - 1])
  }

  lemma PrimitiveBuiltinDisplay(p: PrimitiveRustType)
    requires Expressible(Primitive(p))
    ensures ForBuiltin(Primitive(p)).Some? ==> ForBuiltin(Primitive(p)).value.args == [] && BuiltinPrinted(C.TypeToString(ForBuiltin(Primitive(p)).value))
  {
    match p
    case ZngurCppOpaqueOwnedObject => RustNsDisplay("ZngurCppOpaqueOwnedObject", []);
    case _ =>
  }

  lemma RawBuiltinDisplay(m: Mutability, x: RustType)
    requires Expressible(x)
    requires ForBuiltin(x).Some? ==> BuiltinPrinted(C.TypeToString(ForBuiltin(x).value))
    ensures ForBuiltin(Raw(m, x)).Some? ==> ForBuiltin(Raw(m, x)).value.args == [] && BuiltinPrinted(C.TypeToString(ForBuiltin(Raw(m, x)).value))
  {
    if ForBuiltin(x).Some? {
      var d := C.TypeToString(ForBuiltin(x).value);
      var inner := d[2..];
      assert d == "::" + inner;
      assert StripPrefix(d, "::") == Some(inner);
      var text := inner + (if m.Mut? then "*" else " const*");
      BareDisplay(text);
    }
  }

  lemma {:induction false} ForBuiltinDisplay(t: RustType)
    requires Expressible(t)
    ensures ForBuiltin(t).Some? ==> ForBuiltin(t).value.args == [] && BuiltinPrinted(C.TypeToString(ForBuiltin(t).value))
    decreases t
  {
    match t
    case Primitive(p) => PrimitiveBuiltinDisplay(p);
    case Raw(m, x) =>
      ForBuiltinDisplay(x);
      RawBuiltinDisplay(m, x);
    case _ =>
  }

  /** A raw pointer to a builtin is the C pointer to it: the pointee's C name
      followed by `*`, or by ` const*` for a `*const`. */
  lemma RawPointerToBuiltin(t: RustType)
    requires Expressible(t) && ForBuiltin(t).Some?
    ensures C.TypeToString(TypeIntoCpp(Raw(Mut, t))) == C.TypeToString(TypeIntoCpp(t)) + "*"
    ensures C.TypeToString(TypeIntoCpp(Raw(Not, t))) == C.TypeToString(TypeIntoCpp(t)) + " const*"
  {
    ForBuiltinDisplay(t);
    RawBuiltinText(Mut, t);
    RawBuiltinText(Not, t);
  }

  lemma RawBuiltinText(m: Mutability, t: RustType)
    requires Expressible(t) && ForBuiltin(t).Some? && BuiltinPrinted(C.TypeToString(ForBuiltin(t).value))
    ensures C.TypeToString(TypeIntoCpp(Raw(m, t))) == C.TypeToString(TypeIntoCpp(t)) + (if m.Mut? then "*" else " const*")
  {
    var d := C.TypeToString(ForBuiltin(t).value);
    var inner := d[2..];
    var suffix := if m.Mut? then "*" else " const*";
    assert d == "::" + inner;
    assert StripPrefix(d, "::") == Some(inner);
    RawIntoCpp(m, t, inner);
    RawBuiltinSuffix(inner, suffix);
    Regroup("::", inner, suffix, d);
  }

  lemma Regroup(p: string, x: string, s: string, d: string)
    requires d == p + x
    ensures p + (x + s) == d + s
  {
  }

  lemma RawIntoCpp(m: Mutability, t: RustType, inner: string)
    requires Expressible(t) && ForBuiltin(t).Some? && StripPrefix(C.TypeToString(ForBuiltin(t).value), "::") == Some(inner)
    ensures TypeIntoCpp(t) == ForBuiltin(t).value
    ensures TypeIntoCpp(Raw(m, t)) == Bare(inner + (if m.Mut? then "*" else " const*"))
  {
  }

  lemma RawBuiltinSuffix(inner: string, suffix: string)
    requires |inner| > 0 && !IsSpace(inner[0]) && (suffix == "*" || suffix == " const*")
    ensures C.TypeToString(Bare(inner + suffix)) == "::" + (inner + suffix)
  {
    BareDisplay(inner + suffix);
  }

  /** The scalar mapping: `uN`/`iN` to `uintN_t`/`intN_t`, `f32`/`f64` to
      `float_t`/`double_t`, `usize` to `size_t`, and `bool`/`str` to the
      `rust::Bool`/`rust::Str` classes. */
  lemma ScalarNames(bits: nat)
    ensures C.TypeToString(TypeIntoCpp(Primitive(Uint(bits)))) == "::uint" + NatToString(bits) + "_t"
    ensures C.TypeToString(TypeIntoCpp(Primitive(Int(bits)))) == "::int" + NatToString(bits) + "_t"
  {
  }

  lemma FloatNames(bits: nat)
    requires bits == 32 || bits == 64
    ensures C.TypeToString(TypeIntoCpp(Primitive(Float(bits)))) == if bits == 32 then "::float_t" else "::double_t"
  {
  }

  lemma NamedScalars(p: PrimitiveRustType)
    requires p == Usize || p == Bool || p == Str
    ensures C.TypeToString(TypeIntoCpp(Primitive(p))) ==
              match p case Usize => "::size_t" case Bool => "::rust::Bool" case _ => "::rust::Str"
  {
    RustNsDisplay("Bool", []);
    RustNsDisplay("Str", []);
  }

  lemma {:induction false} TypesIntoCppAt(ts: seq<RustType>)
    requires forall i | 0 <= i < |ts| :: Expressible(ts[i])
    ensures forall i | 0 <= i < |ts| :: TypesIntoCpp(ts)[i] == TypeIntoCpp(ts[i])
    decreases |ts|
  {
    if |ts| > 0 {
      TypesIntoCppAt(ts[1..]);
    }
  }

  /** The wrapper templates: `Box<T>`, `&T`/`&mut T`, `[T]`, a raw pointer to a
      non-builtin, the unit type, and tuples, one argument per element. */
  lemma WrapperTypes(x: RustType)
    requires Expressible(x)
    ensures TypeIntoCpp(Boxed(x)) == C.CppType(RustNs("Box"), [TypeIntoCpp(x)])
    ensures TypeIntoCpp(Ref(Not, x)).path == RustNs("Ref") && TypeIntoCpp(Ref(Mut, x)).path == RustNs("RefMut")
    ensures TypeIntoCpp(Ref(Not, x)).args == TypeIntoCpp(Ref(Mut, x)).args == [TypeIntoCpp(x)]
    ensures TypeIntoCpp(Slice(x)) == C.CppType(RustNs("Slice"), [TypeIntoCpp(x)])
  {
    BoxedType(x);
    RefType(Not, x);
    RefType(Mut, x);
    SliceType(x);
  }

  lemma BoxedType(x: RustType)
    requires Expressible(x)
    ensures TypeIntoCpp(Boxed(x)) == C.CppType(RustNs("Box"), [TypeIntoCpp(x)])
  {
  }

  lemma RefType(m: Mutability, x: RustType)
    requires Expressible(x)
    ensures TypeIntoCpp(Ref(m, x)) == C.CppType(RustNs(if m.Mut? then "RefMut" else "Ref"), [TypeIntoCpp(x)])
  {
  }

  lemma SliceType(x: RustType)
    requires Expressible(x)
    ensures TypeIntoCpp(Slice(x)) == C.CppType(RustNs("Slice"), [TypeIntoCpp(x)])
  {
  }

  /** A raw pointer to anything but a builtin is `rust::Raw` or `rust::RawMut`
      over the pointee. */
  lemma RawPointerToOther(m: Mutability, x: RustType)
    requires Expressible(x) && ForBuiltin(x).None?
    ensures TypeIntoCpp(Raw(m, x)) == C.CppType(RustNs(if m.Mut? then "RawMut" else "Raw"), [TypeIntoCpp(x)])
  {
    assert ForBuiltin(Raw(m, x)).None?;
  }

  /** The empty tuple is `rust::Unit`; any other tuple is `rust::Tuple`
      over its element types in order. */
  lemma TupleTypes(es: seq<RustType>)
    requires forall i | 0 <= i < |es| :: Expressible(es[i])
    ensures C.TypeToString(TypeIntoCpp(Tuple([]))) == "::rust::Unit"
    ensures |es| > 0 ==>
              TypeIntoCpp(Tuple(es)).path == RustNs("Tuple") &&
              |TypeIntoCpp(Tuple(es)).args| == |es| &&
              forall i | 0 <= i < |es| :: TypeIntoCpp(Tuple(es)).args[i] == TypeIntoCpp(es[i])
  {
    RustNsDisplay("Unit", []);
    if |es| > 0 {
      TypesIntoCppAt(es);
    }
  }

  /** A path with generics: the Rust path under `rust`, the positional
      arguments in order, then the named arguments in an order sorted by
      name that is a rearrangement of the given ones. */
  lemma PgArguments(pg: RustPathAndGenerics)
    requires PgExpressible(pg)
    ensures var r := PgIntoCpp(pg);
            var g := |pg.generics|;
            var sorted := SortByName(pg.namedGenerics);
            r.path == C.FromRustPath(pg.path) &&
            |r.args| == g + |pg.namedGenerics| &&
            (forall i | 0 <= i < g :: r.args[i] == TypeIntoCpp(pg.generics[i])) &&
            SortedByName(sorted) && multiset(sorted) == multiset(pg.namedGenerics) &&
            (forall k | 0 <= k < |sorted| :: Expressible(sorted[k].ty) && r.args[g + k] == TypeIntoCpp(sorted[k].ty))
  {
    TypesIntoCppAt(pg.generics);
    SortByNameSorted(pg.namedGenerics);
    SortedExpressible(pg.namedGenerics);
    var sorted := SortByName(pg.namedGenerics);
    var r := PgIntoCpp(pg);
    var g := |pg.generics|;
    var tail := seq(|sorted|, k requires 0 <= k < |sorted| => TypeIntoCpp(sorted[k].ty));
    assert r.args == TypesIntoCpp(pg.generics) + tail;
    forall k | 0 <= k < |sorted| ensures r.args[g + k] == TypeIntoCpp(sorted[k].ty) {
      assert r.args[g + k] == tail[k];
    }
  }

  lemma SortedExpressible(ns: seq<Named>)
    requires forall n | n in ns :: Expressible(n.ty)
    ensures forall k | 0 <= k < |SortByName(ns)| :: Expressible(SortByName(ns)[k].ty)
  {
    var sorted := SortByName(ns);
    forall k | 0 <= k < |sorted| ensures Expressible(sorted[k].ty) {
      assert sorted[k] in multiset(ns);
    }
  }

  /** A `dyn` type: the trait first, then one `rust::Bound` per marker bound. */
  lemma DynArguments(tr: RustTrait, bounds: seq<string>)
    requires TraitExpressible(tr)
    requires forall k | 0 <= k < |bounds| :: |bounds[k]| > 0 && NoColon(bounds[k]) && !IsSpace(bounds[k][|bounds[k]| - 1])
    ensures var r := TypeIntoCpp(Dyn(tr, bounds));
            r.path == RustNs("Dyn") && |r.args| == |bounds| + 1 && r.args[0] == TraitIntoCpp(tr) &&
            forall k | 0 <= k < |bounds| :: r.args[k + 1] == C.CppType(RustNs(bounds[k]), [])
  {
    assert ForBuiltin(Dyn(tr, bounds)).None?;
    forall k | 0 <= k < |bounds| ensures C.PathFrom("rust::" + bounds[k]) == RustNs(bounds[k]) {
      PathFromRust(bounds[k]);
    }
  }

  /** A closure trait `FnName(A, B) -> R` is `rust::FnName<A, B, R>`. */
  lemma FnTraitArguments(name: string, inputs: seq<RustType>, output: RustType)
    requires |name| > 0 && NoColon(name) && !IsSpace(name[|name| - 1])
    requires TraitExpressible(FnTrait(name, inputs, output))
    ensures var r := TraitIntoCpp(FnTrait(name, inputs, output));
            r.path == RustNs(name) && |r.args| == |inputs| + 1 &&
            (forall i | 0 <= i < |inputs| :: r.args[i] == TypeIntoCpp(inputs[i])) &&
            r.args[|inputs|] == TypeIntoCpp(output)
  {
    PathFromRust(name);
    TypesIntoCppAt(inputs);
  }
}
