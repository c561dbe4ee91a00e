/**
 * Conversion of a rustdoc JSON crate description into a Zngur specification
 * (`zngur-def` rdoc support). A panic of the source (an `unwrap` on a missing
 * entry, an unsupported receiver) is the `Err` outcome here, except the
 * `unwrap` of the crate root's name, which rustdoc output always has: that
 * one is a precondition.
 */
module Rdoc {
  import opened Wrappers
  import opened StrUtil
  import opened ZngurDef

  type Id = nat

  /** The subset of rustdoc's `Type` that the conversion distinguishes. */
  datatype RdType =
    | ResolvedPath(path: string, args: Option<RdGenericArgs>)
    | DynTrait(traitPaths: seq<string>)
    | Generic(name: string)
    | RdPrimitive(primName: string)
    | FunctionPointer(inputs: seq<RdParam>, output: Option<RdType>)
    | RdTuple(items: seq<RdType>)
    | RdSlice(item: RdType)
    | Array(item: RdType, len: string)
    | Pat(item: RdType)
    | ImplTrait
    | Infer
    | RawPointer(isMutable: bool, item: RdType)
    | BorrowedRef(isMutable: bool, item: RdType)
    | QualifiedPath(name: string, selfType: RdType)

  datatype RdParam = RdParam(name: string, ty: RdType)

  datatype RdGenericArgs = AngleBracketed(args: seq<RdGenericArg>) | Parenthesized | ReturnTypeNotation

  /** A generic argument: a type, or a lifetime/const/inferred argument that the conversion ignores. */
  datatype RdGenericArg = TypeArg(ty: RdType) | NonTypeArg

  datatype RdSig = RdSig(inputs: seq<RdParam>, output: Option<RdType>)

  datatype RdItemEnum =
    | StructItem(structImpls: seq<Id>)
    | EnumItem(enumImpls: seq<Id>)
    | FunctionItem(sig: RdSig)
    | ImplItem(traitPath: Option<string>, items: seq<Id>)
    | OtherItem

  datatype RdItem = RdItem(name: Option<string>, inner: RdItemEnum)

  datatype ItemSummary = ItemSummary(crateId: nat, path: seq<string>)

  /** A crate: the item index (with its iteration order) and the path table. */
  datatype Crate = Crate(root: Id, index: map<Id, RdItem>, order: seq<Id>, paths: map<Id, ItemSummary>)

  /** Mutability of a rustdoc `is_mutable` flag. */
  function MutabilityOf(isMutable: bool): (m: Mutability)
    ensures m == Mut <==> isMutable
  {
    if isMutable then Mut else Not
  }

  /** `TryFrom<rustdoc_types::Type> for RustType`. The primitive-name table is
      a parameter (`PrimitiveRustType::from` is not part of this model). */
  function ConvertType(t: RdType, primFrom: string -> PrimitiveRustType): (r: RustType)
    ensures t.ResolvedPath? ==> r.Adt? && r.pg.path == Split(t.path, "::") && r.pg.namedGenerics == []
    ensures t.Generic? ==> r.Adt? && r.pg.path == [t.name]
    ensures t.RdTuple? ==> r.Tuple? && |r.elems| == |t.items|
    ensures t.RdSlice? || t.Array? ==> r.Slice?
    ensures t.BorrowedRef? ==> r.Ref? && (r.m.Mut? <==> t.isMutable)
    ensures t.RawPointer? ==> r.Raw? && (r.m.Mut? <==> t.isMutable)
    ensures t.FunctionPointer? ==> r.Dyn? && r.tr.FnTrait? && |r.tr.inputs| == |t.inputs|
    ensures t.ImplTrait? || t.Infer? || (t.DynTrait? && t.traitPaths == []) ==> r == UNIT
    ensures !r.TypeVar? && !r.Impl? && !r.Boxed?
    decreases t, 1
  {
    match t
    case ResolvedPath(path, args) =>
      var generics := if args.Some? && args.value.AngleBracketed? then ConvertArgs(args.value.args, primFrom) else [];
      Adt(RustPathAndGenerics(Split(path, "::"), generics, []))
    case DynTrait(traitPaths) =>
      if |traitPaths| > 0 then Dyn(Normal(RustPathAndGenerics(Split(traitPaths[0], "::"), [], [])), []) else UNIT
    case Generic(name) => Adt(RustPathAndGenerics([name], [], []))
    case RdPrimitive(p) => Primitive(primFrom(p))
    case FunctionPointer(inputs, output) =>
      Dyn(FnTrait("fn", ConvertParams(inputs, primFrom), if output.Some? then ConvertType(output.value, primFrom) else UNIT), [])
    case RdTuple(items) => Tuple(ConvertTypes(items, primFrom))
    case RdSlice(item) => Slice(ConvertType(item, primFrom))
    case Array(item, _) => Slice(ConvertType(item, primFrom))
    case Pat(item) => ConvertType(item, primFrom)
    case ImplTrait => UNIT
    case Infer => UNIT
    case RawPointer(isMutable, item) => Raw(MutabilityOf(isMutable), ConvertType(item, primFrom))
    case BorrowedRef(isMutable, item) => Ref(MutabilityOf(isMutable), ConvertType(item, primFrom))
    case QualifiedPath(_, selfType) => ConvertType(selfType, primFrom)
  }

  function ConvertTypes(ts: seq<RdType>, primFrom: string -> PrimitiveRustType): (r: seq<RustType>)
    ensures |r| == |ts|
    ensures forall i :: 0 <= i < |ts| ==> r[i] == ConvertType(ts[i], primFrom)
    decreases ts, 0
  {
    if |ts| == 0 then [] else [ConvertType(ts[0], primFrom)] + ConvertTypes(ts[1..], primFrom)
  }

  function ConvertParams(ps: seq<RdParam>, primFrom: string -> PrimitiveRustType): (r: seq<RustType>)
    ensures |r| == |ps|
    ensures forall i :: 0 <= i < |ps| ==> r[i] == ConvertType(ps[i].ty, primFrom)
    decreases ps, 0
  {
    if |ps| == 0 then [] else [ConvertType(ps[0].ty, primFrom)] + ConvertParams(ps[1..], primFrom)
  }

  /** The type arguments of a generic argument list, in order. */
  function TypeArgs(args: seq<RdGenericArg>): seq<RdType> {
    if |args| == 0 then [] else (if args[0].TypeArg? then [args[0].ty] else []) + TypeArgs(args[1..])
  }

  /** Only type arguments become generics, each converted, in order;
      lifetimes and consts are skipped. */
  function ConvertArgs(args: seq<RdGenericArg>, primFrom: string -> PrimitiveRustType): (r: seq<RustType>)
    ensures |r| == |TypeArgs(args)|
    decreases args, 0
  {
    if |args| == 0 then []
    else
      ConvertArg(args[0], primFrom) + ConvertArgs(args[1..], primFrom)
  }

  function ConvertArg(a: RdGenericArg, primFrom: string -> PrimitiveRustType): (r: seq<RustType>)
    ensures r == (if a.TypeArg? then [ConvertType(a.ty, primFrom)] else [])
    decreases a, 0
  {
    match a
    case TypeArg(ty) => [ConvertType(ty, primFrom)]
    case NonTypeArg => []
  }

  /** The generics of a path are its type arguments converted one by one, in order. */
  lemma {:induction false} ConvertArgsAreTypeArgs(args: seq<RdGenericArg>, primFrom: string -> PrimitiveRustType)
    ensures ConvertArgs(args, primFrom) == ConvertTypes(TypeArgs(args), primFrom)
    decreases |args|
  {
    if |args| > 0 {
      ConvertArgsAreTypeArgs(args[1..], primFrom);
      var ts := TypeArgs(args);
      if args[0].TypeArg? {
        assert ts[1..] == TypeArgs(args[1..]);
      }
    }
  }

  /** The shape of every converted type: no `impl`, `Box` or template
      variable, no marker bounds on `dyn`, and no named generics anywhere. */
  predicate RdocShaped(t: RustType)
    decreases t, 1
  {
    match t
    case Primitive(_) => true
    case Ref(_, inner) => RdocShaped(inner)
    case Raw(_, inner) => RdocShaped(inner)
    case Boxed(_) => false
    case Slice(inner) => RdocShaped(inner)
    case Dyn(tr, bounds) => bounds == [] && TraitShaped(tr)
    case Impl(_, _) => false
    case Tuple(elems) => AllShaped(elems)
    case Adt(pg) => pg.namedGenerics == [] && AllShaped(pg.generics)
    case TypeVar(_) => false
  }

  predicate TraitShaped(tr: RustTrait)
    decreases tr, 2
  {
    match tr
    case Normal(pg) => pg.generics == [] && pg.namedGenerics == []
    case FnTrait(name, inputs, output) => name == "fn" && AllShaped(inputs) && RdocShaped(output)
  }

  predicate AllShaped(ts: seq<RustType>)
    decreases ts, 0
  {
    forall i :: 0 <= i < |ts| ==> RdocShaped(ts[i])
  }

  /** Every rustdoc type converts to a type of that shape. */
  lemma {:induction false} ConvertTypeShaped(t: RdType, primFrom: string -> PrimitiveRustType)
    ensures RdocShaped(ConvertType(t, primFrom))
    decreases t, 1
  {
    match t
    case ResolvedPath(path, args) =>
      if args.Some? && args.value.AngleBracketed? { ConvertArgsShaped(args.value.args, primFrom); }
    case DynTrait(_) =>
    case Generic(_) =>
    case RdPrimitive(_) =>
    case FunctionPointer(inputs, output) =>
      ConvertParamsShaped(inputs, primFrom);
      if output.Some? { ConvertTypeShaped(output.value, primFrom); }
    case RdTuple(items) => ConvertTypesShaped(items, primFrom);
    case RdSlice(item) => ConvertTypeShaped(item, primFrom);
    case Array(item, _) => ConvertTypeShaped(item, primFrom);
    case Pat(item) => ConvertTypeShaped(item, primFrom);
    case ImplTrait =>
    case Infer =>
    case RawPointer(_, item) => ConvertTypeShaped(item, primFrom);
    case BorrowedRef(_, item) => ConvertTypeShaped(item, primFrom);
    case QualifiedPath(_, selfType) => ConvertTypeShaped(selfType, primFrom);
  }

  lemma {:induction false} ConvertTypesShaped(ts: seq<RdType>, primFrom: string -> PrimitiveRustType)
    ensures AllShaped(ConvertTypes(ts, primFrom))
    decreases ts, 0
  {
    if |ts| > 0 {
      ConvertTypeShaped(ts[0], primFrom);
      ConvertTypesShaped(ts[1..], primFrom);
      var r := ConvertTypes(ts, primFrom);
      assert forall i :: 1 <= i < |r| ==> r[i] == ConvertTypes(ts[1..], primFrom)[i - 1];
    }
  }

  lemma {:induction false} ConvertParamsShaped(ps: seq<RdParam>, primFrom: string -> PrimitiveRustType)
    ensures AllShaped(ConvertParams(ps, primFrom))
    decreases ps, 0
  {
    if |ps| > 0 {
      ConvertTypeShaped(ps[0].ty, primFrom);
      ConvertParamsShaped(ps[1..], primFrom);
      var r := ConvertParams(ps, primFrom);
      assert forall i :: 1 <= i < |r| ==> r[i] == ConvertParams(ps[1..], primFrom)[i - 1];
    }
  }

  lemma {:induction false} ConvertArgsShaped(args: seq<RdGenericArg>, primFrom: string -> PrimitiveRustType)
    ensures AllShaped(ConvertArgs(args, primFrom))
    decreases args, 0
  {
    if |args| > 0 {
      ConvertArgsShaped(args[1..], primFrom);
      var head := ConvertArg(args[0], primFrom);
      ConvertArgShaped(args[0], primFrom);
      AllShapedAppend(head, ConvertArgs(args[1..], primFrom));
    }
  }

  lemma AllShapedAppend(x: seq<RustType>, y: seq<RustType>)
    requires AllShaped(x) && AllShaped(y)
    ensures AllShaped(x + y)
  {
    forall i | 0 <= i < |x + y| ensures RdocShaped((x + y)[i]) {
      if i >= |x| { assert (x + y)[i] == y[i - |x|]; }
    }
  }

  lemma {:induction false} ConvertArgShaped(a: RdGenericArg, primFrom: string -> PrimitiveRustType)
    ensures AllShaped(ConvertArg(a, primFrom))
    decreases a, 0
  {
    match a {
      case TypeArg(ty) => ConvertTypeShaped(ty, primFrom);
      case NonTypeArg =>
    }
  }

  /** The special cases of the conversion: arrays become slices, opaque and
      inferred types become unit, a qualified path stands for its self type,
      an empty `dyn` is unit and otherwise only its first trait survives. */
  lemma ConvertTypeSpecialCases(t: RdType, primFrom: string -> PrimitiveRustType)
    ensures t.Array? ==> ConvertType(t, primFrom) == ConvertType(RdSlice(t.item), primFrom)
    ensures t.ImplTrait? || t.Infer? ==> ConvertType(t, primFrom) == UNIT
    ensures t.QualifiedPath? ==> ConvertType(t, primFrom) == ConvertType(t.selfType, primFrom)
    ensures t.DynTrait? && t.traitPaths == [] ==> ConvertType(t, primFrom) == UNIT
    ensures t.DynTrait? && |t.traitPaths| > 0 ==>
              ConvertType(t, primFrom) == ConvertType(DynTrait([t.traitPaths[0]]), primFrom)
    ensures (t.RawPointer? || t.BorrowedRef?) ==>
              ConvertType(t, primFrom).m == MutabilityOf(t.isMutable)
              && ConvertType(t, primFrom).inner == ConvertType(t.item, primFrom)
  {
  }

  /** `convert_path`: a summary from the local crate (id 0) gets `crate` as
      its first segment and is reported local. */
  function ConvertPath(summ: ItemSummary): (r: (ItemSummary, bool))
    requires summ.crateId == 0 ==> |summ.path| > 0
    ensures r.1 <==> summ.crateId == 0
    ensures r.0.crateId == summ.crateId && |r.0.path| == |summ.path|
    ensures r.1 ==> r.0.path[0] == "crate" && r.0.path[1..] == summ.path[1..]
    ensures !r.1 ==> r.0 == summ
  {
    if summ.crateId == 0 then (summ.(path := ["crate"] + summ.path[1..]), true) else (summ, false)
  }

  /** The well-known trait a trait impl's name contributes, if any. */
  function WellknownOfTraitName(name: string): (r: Option<ZngurWellknownTrait>)
    ensures name == "Debug" <==> r == Some(Debug)
    ensures name == "Drop" <==> r == Some(Drop)
    ensures name == "Unsized" <==> r == Some(Unsized)
    ensures name == "Copy" <==> r == Some(Copy)
  {
    if name == "Debug" then Some(Debug)
    else if name == "Drop" then Some(Drop)
    else if name == "Unsized" then Some(Unsized)
    else if name == "Copy" then Some(Copy)
    else None
  }

  /** Index of the first parameter named `self`. */
  function FindSelf(ps: seq<RdParam>): (r: Option<nat>)
    ensures r.Some? ==> r.value < |ps| && ps[r.value].name == "self"
    ensures r.Some? ==> forall j :: 0 <= j < r.value ==> ps[j].name != "self"
    ensures r.None? ==> forall i :: 0 <= i < |ps| ==> ps[i].name != "self"
    decreases |ps|
  {
    if |ps| == 0 then None
    else if ps[0].name == "self" then Some(0)
    else match FindSelf(ps[1..]) case None => None case Some(j) => Some(j + 1)
  }

  /** The parameters other than `self`. */
  function NonSelfParams(ps: seq<RdParam>): (r: seq<RdParam>)
    ensures forall i :: 0 <= i < |r| ==> r[i].name != "self" && r[i] in ps
    ensures forall p :: p in ps && p.name != "self" ==> p in r
    ensures FindSelf(ps).None? ==> r == ps
    decreases |ps|
  {
    if |ps| == 0 then [] else (if ps[0].name != "self" then [ps[0]] else []) + NonSelfParams(ps[1..])
  }

  /** Filtering out `self` keeps the order: it distributes over concatenation. */
  lemma NonSelfParamsAppend(a: seq<RdParam>, b: seq<RdParam>)
    ensures NonSelfParams(a + b) == NonSelfParams(a) + NonSelfParams(b)
  {
    NonSelfParamsFiltered(a + b);
    NonSelfParamsFiltered(a);
    NonSelfParamsFiltered(b);
    SelfFilteredAppend(a, b);
  }

  /** The same filter, without the membership facts, for reasoning about order. */
  function SelfFiltered(ps: seq<RdParam>): seq<RdParam>
    decreases |ps|
  {
    if |ps| == 0 then [] else (if ps[0].name != "self" then [ps[0]] else []) + SelfFiltered(ps[1..])
  }

  lemma {:induction false} NonSelfParamsFiltered(ps: seq<RdParam>)
    ensures NonSelfParams(ps) == SelfFiltered(ps)
    decreases |ps|
  {
    if |ps| > 0 {
      NonSelfParamsFiltered(ps[1..]);
    }
  }

  lemma {:induction false} SelfFilteredAppend(a: seq<RdParam>, b: seq<RdParam>)
    ensures SelfFiltered(a + b) == SelfFiltered(a) + SelfFiltered(b)
    decreases |a|
  {
    if |a| == 0 {
      assert a + b == b;
    } else {
      var h := if a[0].name != "self" then [a[0]] else [];
      assert (a + b)[0] == a[0] && (a + b)[1..] == a[1..] + b;
      assert SelfFiltered(a + b) == h + SelfFiltered(a[1..] + b);
      SelfFilteredAppend(a[1..], b);
    }
  }

  /** The receiver chosen by the type of the first `self` parameter. */
  function ReceiverOf(ps: seq<RdParam>): (r: Result<MethodReceiver, string>)
    ensures FindSelf(ps).None? <==> r == Ok(Static)
    ensures FindSelf(ps).Some? && ps[FindSelf(ps).value].ty.BorrowedRef? ==>
              r == Ok(ByRef(MutabilityOf(ps[FindSelf(ps).value].ty.isMutable)))
    ensures FindSelf(ps).Some? && ps[FindSelf(ps).value].ty.Generic? ==> r == Ok(Move)
    ensures r.Err? <==> FindSelf(ps).Some? && !ps[FindSelf(ps).value].ty.BorrowedRef? && !ps[FindSelf(ps).value].ty.Generic?
  {
    match FindSelf(ps)
    case None => Ok(Static)
    case Some(i) =>
      match ps[i].ty
      case BorrowedRef(isMutable, _) => Ok(ByRef(MutabilityOf(isMutable)))
      case Generic(_) => Ok(Move)
      case _ => Err("unsupported receiver type")
  }

  function OutputOf(output: Option<RdType>, primFrom: string -> PrimitiveRustType): (r: RustType)
    ensures output.None? ==> r == UNIT
    ensures output.Some? ==> r == ConvertType(output.value, primFrom)
  {
    if output.Some? then ConvertType(output.value, primFrom) else UNIT
  }

  /** `fn_to_zngmethod`: `None` for a missing or non-function item or an
      unnamed one; the `self` parameter decides the receiver and is removed
      from the inputs. */
  function FnToZngMethod(funcId: Id, krate: Crate, primFrom: string -> PrimitiveRustType): (r: Result<Option<ZngurMethod>, string>)
    requires krate.root in krate.index && krate.index[krate.root].name.Some?
    ensures r.Ok? && r.value.Some? ==>
              && funcId in krate.index && krate.index[funcId].inner.FunctionItem?
              && var sig := krate.index[funcId].inner.sig;
              && r.value.value.generics == []
              && Ok(r.value.value.receiver) == ReceiverOf(sig.inputs)
              && r.value.value.inputs == ConvertParams(NonSelfParams(sig.inputs), primFrom)
              && r.value.value.output == OutputOf(sig.output, primFrom)
              && Some(r.value.value.name) == krate.index[funcId].name
    ensures r == Ok(None) <==>
              || funcId !in krate.index || !krate.index[funcId].inner.FunctionItem?
              || (ReceiverOf(krate.index[funcId].inner.sig.inputs).Ok? && krate.index[funcId].name.None?)
    ensures r.Err? <==>
              && funcId in krate.index && krate.index[funcId].inner.FunctionItem?
              && ReceiverOf(krate.index[funcId].inner.sig.inputs).Err?
  {
    if funcId !in krate.index then Ok(None)
    else
      var item := krate.index[funcId];
      if !item.inner.FunctionItem? then Ok(None)
      else
        var sig := item.inner.sig;
        match ReceiverOf(sig.inputs)
        case Err(e) => Err(e)
        case Ok(receiver) =>
          var inputs := ConvertParams(NonSelfParams(sig.inputs), primFrom);
          var output := OutputOf(sig.output, primFrom);
          if item.name.None? then Ok(None)
          else Ok(Some(ZngurMethod(item.name.value, [], receiver, inputs, output)))
  }

  /** `fn_to_zngfn`: every parameter is an input and the path is the converted summary path. */
  function FnToZngFn(funcId: Id, krate: Crate, primFrom: string -> PrimitiveRustType): (r: Result<Option<ZngurFn>, string>)
    ensures r.Ok? && r.value.Some? ==>
              && funcId in krate.index && funcId in krate.paths && krate.index[funcId].inner.FunctionItem?
              && r.value.value.inputs == ConvertParams(krate.index[funcId].inner.sig.inputs, primFrom)
              && r.value.value.output == OutputOf(krate.index[funcId].inner.sig.output, primFrom)
              && r.value.value.path.generics == [] && r.value.value.path.namedGenerics == []
              && (krate.paths[funcId].crateId == 0 ==> |krate.paths[funcId].path| > 0)
              && r.value.value.path.path == ConvertPath(krate.paths[funcId]).0.path
    ensures r.Err? <==> funcId in krate.index && funcId in krate.paths
                        && krate.paths[funcId].crateId == 0 && |krate.paths[funcId].path| == 0
    ensures r == Ok(None) <==>
              || funcId !in krate.index || funcId !in krate.paths
              || (HasLayoutKey(krate.paths[funcId]) && !krate.index[funcId].inner.FunctionItem?)
  {
    if funcId !in krate.index || funcId !in krate.paths then Ok(None)
    else
      var summ := krate.paths[funcId];
      if summ.crateId == 0 && |summ.path| == 0 then Err("empty local path")
      else
        var path := ConvertPath(summ).0.path;
        var item := krate.index[funcId];
        if !item.inner.FunctionItem? then Ok(None)
        else
          var sig := item.inner.sig;
          Ok(Some(ZngurFn(RustPathAndGenerics(path, [], []), ConvertParams(sig.inputs, primFrom), OutputOf(sig.output, primFrom))))
  }

  /** Whether a type is written as the bare path `Self`. */
  predicate IsSelfPath(t: RustType) {
    t.Adt? && t.pg.path == ["Self"]
  }

  /** An inherent method whose output is `Self` returns the owning type instead. */
  function ResolveSelfOutput(m: ZngurMethod, owner: RustType): (r: ZngurMethod)
    ensures r == m.(output := r.output)
    ensures r.output == m.output || r.output == owner
    ensures IsSelfPath(r.output) ==> r.output == owner
  {
    if IsSelfPath(m.output) then m.(output := owner) else m
  }

  /** Resolving `Self` is idempotent, and it changes only a `Self` output. */
  lemma ResolveSelfOutputIdempotent(m: ZngurMethod, owner: RustType)
    ensures ResolveSelfOutput(ResolveSelfOutput(m, owner), owner) == ResolveSelfOutput(m, owner)
    ensures !IsSelfPath(m.output) ==> ResolveSelfOutput(m, owner) == m
  {
  }

  /** The methods an inherent impl contributes, in item order. */
  function ProcessMethods(ztype: ZngurType, items: seq<Id>, krate: Crate, primFrom: string -> PrimitiveRustType): Result<ZngurType, string>
    requires krate.root in krate.index && krate.index[krate.root].name.Some?
    decreases |items|
  {
    if |items| == 0 then Ok(ztype)
    else
      match FnToZngMethod(items[0], krate, primFrom)
      case Err(e) => Err(e)
      case Ok(None) => ProcessMethods(ztype, items[1..], krate, primFrom)
      case Ok(Some(m)) =>
        var details := ZngurMethodDetails(ResolveSelfOutput(m, ztype.ty), None, None);
        ProcessMethods(ztype.(methods := ztype.methods + [details]), items[1..], krate, primFrom)
  }

  /** One impl block: inherent impls add methods, trait impls add a well-known trait. */
  function ProcessImpl(ztype: ZngurType, implId: Id, krate: Crate, primFrom: string -> PrimitiveRustType): Result<ZngurType, string>
    requires krate.root in krate.index && krate.index[krate.root].name.Some?
  {
    if implId !in krate.index || !krate.index[implId].inner.ImplItem? then Ok(ztype)
    else
      var i := krate.index[implId].inner;
      match i.traitPath
      case None => ProcessMethods(ztype, i.items, krate, primFrom)
      case Some(t) =>
        match WellknownOfTraitName(t)
        case Some(w) => Ok(ztype.(wellknownTraits := ztype.wellknownTraits + [w]))
        case None => Ok(ztype)
  }

  function ProcessImplsSpec(ztype: ZngurType, impls: seq<Id>, krate: Crate, primFrom: string -> PrimitiveRustType): Result<ZngurType, string>
    requires krate.root in krate.index && krate.index[krate.root].name.Some?
    decreases |impls|
  {
    if |impls| == 0 then Ok(ztype)
    else
      match ProcessImpl(ztype, impls[0], krate, primFrom)
      case Err(e) => Err(e)
      case Ok(t) => ProcessImplsSpec(t, impls[1..], krate, primFrom)
  }

  /** What an impl adds: only methods (with no `use` path and no deref) and
      well-known traits; the type and the rest stay. */
  predicate Extends(before: ZngurType, after: ZngurType) {
    && after == before.(methods := after.methods, wellknownTraits := after.wellknownTraits)
    && before.methods <= after.methods
    && before.wellknownTraits <= after.wellknownTraits
    && forall k :: |before.methods| <= k < |after.methods| ==>
         after.methods[k].usePath.None? && after.methods[k].deref.None?
  }

  lemma ExtendsTrans(a: ZngurType, b: ZngurType, c: ZngurType)
    requires Extends(a, b) && Extends(b, c)
    ensures Extends(a, c)
  {
  }

  lemma {:induction false} ProcessMethodsExtends(ztype: ZngurType, items: seq<Id>, krate: Crate, primFrom: string -> PrimitiveRustType)
    requires krate.root in krate.index && krate.index[krate.root].name.Some?
    ensures ProcessMethods(ztype, items, krate, primFrom).Ok? ==> Extends(ztype, ProcessMethods(ztype, items, krate, primFrom).value)
    decreases |items|
  {
    if |items| > 0 {
      match FnToZngMethod(items[0], krate, primFrom)
      case Err(_) =>
      case Ok(None) => ProcessMethodsExtends(ztype, items[1..], krate, primFrom);
      case Ok(Some(m)) =>
        var next := ztype.(methods := ztype.methods + [ZngurMethodDetails(ResolveSelfOutput(m, ztype.ty), None, None)]);
        ProcessMethodsExtends(next, items[1..], krate, primFrom);
        if ProcessMethods(ztype, items, krate, primFrom).Ok? {
          ExtendsTrans(ztype, next, ProcessMethods(ztype, items, krate, primFrom).value);
        }
    }
  }

  /** Processing impls only appends methods and well-known traits. */
  lemma {:induction false} ProcessImplsExtends(ztype: ZngurType, impls: seq<Id>, krate: Crate, primFrom: string -> PrimitiveRustType)
    requires krate.root in krate.index && krate.index[krate.root].name.Some?
    ensures ProcessImplsSpec(ztype, impls, krate, primFrom).Ok? ==> Extends(ztype, ProcessImplsSpec(ztype, impls, krate, primFrom).value)
    decreases |impls|
  {
    if |impls| > 0 {
      var implId := impls[0];
      var step := ProcessImpl(ztype, implId, krate, primFrom);
      if step.Ok? {
        if implId in krate.index && krate.index[implId].inner.ImplItem? && krate.index[implId].inner.traitPath.None? {
          ProcessMethodsExtends(ztype, krate.index[implId].inner.items, krate, primFrom);
        }
        assert Extends(ztype, step.value);
        ProcessImplsExtends(step.value, impls[1..], krate, primFrom);
        if ProcessImplsSpec(ztype, impls, krate, primFrom).Ok? {
          ExtendsTrans(ztype, step.value, ProcessImplsSpec(ztype, impls, krate, primFrom).value);
        }
      }
    }
  }

  /** `process_impls`, as the nested loops the source runs over impls and their items. */
  method ProcessImpls(ztype: ZngurType, impls: seq<Id>, krate: Crate, primFrom: string -> PrimitiveRustType)
    returns (r: Result<ZngurType, string>)
    requires krate.root in krate.index && krate.index[krate.root].name.Some?
    ensures r == ProcessImplsSpec(ztype, impls, krate, primFrom)
  {
    var t := ztype;
    var i := 0;
    while i < |impls|
      invariant 0 <= i <= |impls|
      invariant ProcessImplsSpec(t, impls[i..], krate, primFrom) == ProcessImplsSpec(ztype, impls, krate, primFrom)
    {
      assert impls[i..][1..] == impls[i + 1..];
      var implId := impls[i];
      if implId in krate.index && krate.index[implId].inner.ImplItem? {
        var inner := krate.index[implId].inner;
        if inner.traitPath.None? {
          var items := inner.items;
          var j := 0;
          var cur := t;
          while j < |items|
            invariant 0 <= j <= |items|
            invariant ProcessMethods(cur, items[j..], krate, primFrom) == ProcessMethods(t, items, krate, primFrom)
          {
            assert items[j..][1..] == items[j + 1..];
            var m := FnToZngMethod(items[j], krate, primFrom);
            if m.Err? {
              r := Err(m.error);
              return;
            }
            if m.value.Some? {
              cur := cur.(methods := cur.methods + [ZngurMethodDetails(ResolveSelfOutput(m.value.value, cur.ty), None, None)]);
            }
            j := j + 1;
          }
          assert items[|items|..] == [];
          t := cur;
        } else {
          var w := WellknownOfTraitName(inner.traitPath.value);
          if w.Some? {
            t := t.(wellknownTraits := t.wellknownTraits + [w.value]);
          }
        }
      }
      i := i + 1;
    }
    assert impls[|impls|..] == [];
    r := Ok(t);
  }

  /** `convert_struct_to_zngur_type`: a struct with a path becomes an ADT
      with the `Drop` trait and the layout recorded for it. */
  function ConvertStruct(impls: seq<Id>, id: Id, krate: Crate, layoutInfo: map<string, LayoutPolicy>, primFrom: string -> PrimitiveRustType)
    : (r: Result<Option<ZngurType>, string>)
    requires krate.root in krate.index && krate.index[krate.root].name.Some?
    ensures id !in krate.paths ==> r == Ok(None)
    ensures id in krate.paths && krate.paths[id].crateId == 0 && |krate.paths[id].path| == 0 ==> r.Err?
    ensures id in krate.paths && HasLayoutKey(krate.paths[id]) && LayoutKey(krate.paths[id]) !in layoutInfo ==> r.Err?
    ensures r == Ok(None) <==> id !in krate.paths
    ensures id in krate.paths && HasLayoutKey(krate.paths[id]) && LayoutKey(krate.paths[id]) in layoutInfo ==>
              r == (match ProcessImplsSpec(StructSeed(krate.paths[id], layoutInfo[LayoutKey(krate.paths[id])]), impls, krate, primFrom)
                    case Err(e) => Err(e)
                    case Ok(t) => Ok(Some(t)))
  {
    if id !in krate.paths then Ok(None)
    else
      var summ := krate.paths[id];
      if summ.crateId == 0 && |summ.path| == 0 then Err("empty path")
      else
        var (conv, isLocal) := ConvertPath(summ);
        var path := conv.path;
        var key := if isLocal then path[|path| - 1] else Join(path, "::");
        if key !in layoutInfo then Err("no layout for type")
        else
          var ztype := ZngurType(SimpleAdt(path), Some(layoutInfo[key]), [Drop], [], [], [], None, None);
          match ProcessImplsSpec(ztype, impls, krate, primFrom)
          case Err(e) => Err(e)
          case Ok(t) => Ok(Some(t))
  }

  /** `convert_enum_to_zngur_type`: an enum with a path becomes a heap-allocated ADT with no traits. */
  function ConvertEnum(impls: seq<Id>, id: Id, krate: Crate, primFrom: string -> PrimitiveRustType)
    : (r: Result<Option<ZngurType>, string>)
    requires krate.root in krate.index && krate.index[krate.root].name.Some?
    ensures id !in krate.paths ==> r == Ok(None)
    ensures id in krate.paths && krate.paths[id].crateId == 0 && |krate.paths[id].path| == 0 ==> r.Err?
    ensures r == Ok(None) <==> id !in krate.paths
    ensures id in krate.paths && HasLayoutKey(krate.paths[id]) ==>
              r == (match ProcessImplsSpec(EnumSeed(krate.paths[id]), impls, krate, primFrom)
                    case Err(e) => Err(e)
                    case Ok(t) => Ok(Some(t)))
  {
    if id !in krate.paths then Ok(None)
    else
      var summ := krate.paths[id];
      if summ.crateId == 0 && |summ.path| == 0 then Err("empty path")
      else
        var path := ConvertPath(summ).0.path;
        var ztype := ZngurType(SimpleAdt(path), Some(HeapAllocated), [], [], [], [], None, None);
        match ProcessImplsSpec(ztype, impls, krate, primFrom)
        case Err(e) => Err(e)
        case Ok(t) => Ok(Some(t))
  }

  /** Whether a summary path can be converted: a local path needs a first segment. */
  predicate HasLayoutKey(summ: ItemSummary) {
    summ.crateId == 0 ==> |summ.path| > 0
  }

  /** The type a struct starts as before its impls are processed: a
      generic-free ADT at its converted path, with the given layout and `Drop`. */
  function StructSeed(summ: ItemSummary, layout: LayoutPolicy): ZngurType
    requires HasLayoutKey(summ)
  {
    ZngurType(SimpleAdt(ConvertPath(summ).0.path), Some(layout), [Drop], [], [], [], None, None)
  }

  /** The type an enum starts as: heap allocated, with no traits. */
  function EnumSeed(summ: ItemSummary): ZngurType
    requires HasLayoutKey(summ)
  {
    ZngurType(SimpleAdt(ConvertPath(summ).0.path), Some(HeapAllocated), [], [], [], [], None, None)
  }

  /** The layout key of a struct: its last segment when local, else its `::`-joined path. */
  function LayoutKey(summ: ItemSummary): string
    requires HasLayoutKey(summ)
  {
    var (conv, isLocal) := ConvertPath(summ);
    if isLocal then conv.path[|conv.path| - 1] else Join(conv.path, "::")
  }

  /** A converted struct is a generic-free ADT with `Drop` first and the layout
      recorded under its layout key; a converted enum is heap allocated and its
      traits come only from its impls. Both only gain members from impls. */
  lemma ConvertedTypes(impls: seq<Id>, id: Id, krate: Crate, layoutInfo: map<string, LayoutPolicy>, primFrom: string -> PrimitiveRustType)
    requires krate.root in krate.index && krate.index[krate.root].name.Some?
    ensures var r := ConvertStruct(impls, id, krate, layoutInfo, primFrom);
            r.Ok? && r.value.Some? ==>
              var t := r.value.value;
              && id in krate.paths && HasLayoutKey(krate.paths[id])
              && t.ty == SimpleAdt(ConvertPath(krate.paths[id]).0.path)
              && |t.wellknownTraits| > 0 && t.wellknownTraits[0] == Drop
              && LayoutKey(krate.paths[id]) in layoutInfo
              && t.layout == Some(layoutInfo[LayoutKey(krate.paths[id])])
              && t.constructors == [] && t.fields == [] && t.cppValue.None? && t.cppRef.None?
    ensures var r := ConvertEnum(impls, id, krate, primFrom);
            r.Ok? && r.value.Some? ==>
              var t := r.value.value;
              && t.ty.Adt? && t.layout == Some(HeapAllocated)
              && t.constructors == [] && t.fields == [] && t.cppValue.None? && t.cppRef.None?
  {
    var r := ConvertStruct(impls, id, krate, layoutInfo, primFrom);
    if r.Ok? && r.value.Some? {
      var summ := krate.paths[id];
      var ztype := ZngurType(SimpleAdt(ConvertPath(summ).0.path), Some(layoutInfo[LayoutKey(summ)]), [Drop], [], [], [], None, None);
      ProcessImplsExtends(ztype, impls, krate, primFrom);
    }
    var e := ConvertEnum(impls, id, krate, primFrom);
    if e.Ok? && e.value.Some? {
      var summ := krate.paths[id];
      var ztype := ZngurType(SimpleAdt(ConvertPath(summ).0.path), Some(HeapAllocated), [], [], [], [], None, None);
      ProcessImplsExtends(ztype, impls, krate, primFrom);
    }
  }

  /** One item of the crate index: structs and enums add a type, functions add a free function. */
  function FromCrateStep(spec: ZngurSpec, id: Id, krate: Crate, layoutInfo: map<string, LayoutPolicy>, primFrom: string -> PrimitiveRustType)
    : Result<ZngurSpec, string>
    requires krate.root in krate.index && krate.index[krate.root].name.Some?
  {
    if id !in krate.index then Ok(spec)
    else
      match krate.index[id].inner
      case StructItem(impls) =>
        (match ConvertStruct(impls, id, krate, layoutInfo, primFrom)
         case Err(e) => Err(e)
         case Ok(None) => Ok(spec)
         case Ok(Some(t)) => Ok(spec.(types := spec.types + [t])))
      case EnumItem(impls) =>
        (match ConvertEnum(impls, id, krate, primFrom)
         case Err(e) => Err(e)
         case Ok(None) => Ok(spec)
         case Ok(Some(t)) => Ok(spec.(types := spec.types + [t])))
      case FunctionItem(_) =>
        (match FnToZngFn(id, krate, primFrom)
         case Err(e) => Err(e)
         case Ok(None) => Ok(spec)
         case Ok(Some(f)) => Ok(spec.(funcs := spec.funcs + [f])))
      case _ => Ok(spec)
  }

  function FromCrateFrom(spec: ZngurSpec, ids: seq<Id>, krate: Crate, layoutInfo: map<string, LayoutPolicy>, primFrom: string -> PrimitiveRustType)
    : Result<ZngurSpec, string>
    requires krate.root in krate.index && krate.index[krate.root].name.Some?
    decreases |ids|
  {
    if |ids| == 0 then Ok(spec)
    else
      match FromCrateStep(spec, ids[0], krate, layoutInfo, primFrom)
      case Err(e) => Err(e)
      case Ok(s) => FromCrateFrom(s, ids[1..], krate, layoutInfo, primFrom)
  }

  /** `r` is `spec` with only the type and function lists extended, by at
      most `n` entries in all, and every added function is non-generic. */
  predicate Grows(spec: ZngurSpec, r: ZngurSpec, n: nat) {
    && r == spec.(types := r.types, funcs := r.funcs)
    && spec.types <= r.types && spec.funcs <= r.funcs
    && |r.types| + |r.funcs| <= |spec.types| + |spec.funcs| + n
    && forall k :: |spec.funcs| <= k < |r.funcs| ==> r.funcs[k].path.generics == []
  }

  lemma GrowsTrans(a: ZngurSpec, b: ZngurSpec, c: ZngurSpec, m: nat, n: nat)
    requires Grows(a, b, m) && Grows(b, c, n)
    ensures Grows(a, c, m + n)
  {
  }

  /** One index item adds at most one entry. */
  lemma FromCrateStepGrows(spec: ZngurSpec, id: Id, krate: Crate, layoutInfo: map<string, LayoutPolicy>, primFrom: string -> PrimitiveRustType)
    requires krate.root in krate.index && krate.index[krate.root].name.Some?
    ensures var r := FromCrateStep(spec, id, krate, layoutInfo, primFrom);
            r.Ok? ==> Grows(spec, r.value, 1)
  {
  }

  /** `from_crate` fills only the type and function lists, appending at most
      one entry per index item, in index order. */
  lemma {:induction false} FromCrateShape(spec: ZngurSpec, ids: seq<Id>, krate: Crate, layoutInfo: map<string, LayoutPolicy>, primFrom: string -> PrimitiveRustType)
    requires krate.root in krate.index && krate.index[krate.root].name.Some?
    ensures var r := FromCrateFrom(spec, ids, krate, layoutInfo, primFrom);
            r.Ok? ==> Grows(spec, r.value, |ids|)
    decreases |ids|
  {
    if |ids| > 0 {
      var step := FromCrateStep(spec, ids[0], krate, layoutInfo, primFrom);
      if step.Ok? {
        FromCrateStepGrows(spec, ids[0], krate, layoutInfo, primFrom);
        FromCrateShape(step.value, ids[1..], krate, layoutInfo, primFrom);
        var r := FromCrateFrom(step.value, ids[1..], krate, layoutInfo, primFrom);
        if r.Ok? {
          GrowsTrans(spec, step.value, r.value, 1, |ids| - 1);
        }
      }
    }
  }

  /** `from_crate`, as the loop the source runs over the crate index. */
  method FromCrate(krate: Crate, layoutInfo: map<string, LayoutPolicy>, primFrom: string -> PrimitiveRustType)
    returns (r: Result<ZngurSpec, string>)
    requires krate.root in krate.index && krate.index[krate.root].name.Some?
    ensures r == FromCrateFrom(EMPTY_SPEC, krate.order, krate, layoutInfo, primFrom)
  {
    var spec := EMPTY_SPEC;
    var i := 0;
    while i < |krate.order|
      invariant 0 <= i <= |krate.order|
      invariant FromCrateFrom(spec, krate.order[i..], krate, layoutInfo, primFrom)
                == FromCrateFrom(EMPTY_SPEC, krate.order, krate, layoutInfo, primFrom)
    {
      assert krate.order[i..][1..] == krate.order[i + 1..];
      var step := FromCrateStep(spec, krate.order[i], krate, layoutInfo, primFrom);
      if step.Err? {
        r := step;
        return;
      }
      spec := step.value;
      i := i + 1;
    }
    assert krate.order[|krate.order|..] == [];
    r := Ok(spec);
  }
}
