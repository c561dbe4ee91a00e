/**
 * Template types: matching a concrete type against a template type with
 * type variables, substituting the bindings back, and instantiating the
 * template's members (zngur-parser/src/template_types.rs).
 */
module TemplateTypes {
  import opened Wrappers
  import opened ZngurDef
  import opened ZngurMerge

  /** The bindings of type variables, keyed by variable name. */
  type Mapping = map<string, RustType>

  /** `m2` keeps every binding of `m1`. */
  predicate Extends(m1: Mapping, m2: Mapping) {
    forall v :: v in m1 ==> v in m2 && m2[v] == m1[v]
  }

  // ---- matches_template ----

  /** `matches_template`: `None` when `ty` does not match `tmpl`, otherwise
      the mapping extended with the bindings the match made. A variable binds
      on first sight and must meet an equal type afterwards. */
  function MatchType(ty: RustType, tmpl: RustType, m: Mapping): (r: Option<Mapping>)
    ensures tmpl.TypeVar? ==> (r.Some? <==> tmpl.name !in m || m[tmpl.name] == ty)
    ensures tmpl.TypeVar? && r.Some? ==> r.value == m[tmpl.name := ty]
    ensures tmpl.Primitive? ==> (r.Some? <==> ty == tmpl) && (r.Some? ==> r.value == m)
    decreases tmpl, 2
  {
    match tmpl
    case TypeVar(v) =>
      if v !in m then Some(m[v := ty])
      else if m[v] == ty then Some(m)
      else None
    case Primitive(p2) => if ty.Primitive? && ty.p == p2 then Some(m) else None
    case Ref(m2, t2) => if ty.Ref? && ty.m == m2 then MatchType(ty.inner, t2, m) else None
    case Raw(m2, t2) => if ty.Raw? && ty.m == m2 then MatchType(ty.inner, t2, m) else None
    case Boxed(t2) => if ty.Boxed? then MatchType(ty.inner, t2, m) else None
    case Slice(t2) => if ty.Slice? then MatchType(ty.inner, t2, m) else None
    case Dyn(tr2, b2) => if ty.Dyn? && ty.bounds == b2 then MatchTrait(ty.tr, tr2, m) else None
    case Impl(tr2, b2) => if ty.Impl? && ty.bounds == b2 then MatchTrait(ty.tr, tr2, m) else None
    case Tuple(ts2) => if ty.Tuple? then MatchList(ty.elems, ts2, m) else None
    case Adt(pg2) => if ty.Adt? then MatchGenerics(ty.pg, pg2, m) else None
  }

  /** `match_lists`: equal lengths, then element-wise matching in order. */
  function MatchList(tys: seq<RustType>, tmpls: seq<RustType>, m: Mapping): Option<Mapping>
    decreases tmpls, 1
  {
    if |tys| != |tmpls| then None else MatchIters(tys, tmpls, m)
  }

  function MatchIters(tys: seq<RustType>, tmpls: seq<RustType>, m: Mapping): Option<Mapping>
    requires |tys| == |tmpls|
    decreases tmpls, 0
  {
    if |tmpls| == 0 then Some(m)
    else
      match MatchType(tys[0], tmpls[0], m)
      case None => None
      case Some(m1) => MatchIters(tys[1..], tmpls[1..], m1)
  }

  /** `match_generics`: same path, matching positional generics, and named
      generics with the same names in the same order. */
  function MatchGenerics(pg1: RustPathAndGenerics, pg2: RustPathAndGenerics, m: Mapping): Option<Mapping>
    decreases pg2, 1
  {
    if pg1.path != pg2.path then None
    else
      match MatchList(pg1.generics, pg2.generics, m)
      case None => None
      case Some(m1) =>
        if |pg1.namedGenerics| != |pg2.namedGenerics| then None
        else MatchNamedList(pg1.namedGenerics, pg2.namedGenerics, m1)
  }

  function MatchNamedList(ns1: seq<Named>, ns2: seq<Named>, m: Mapping): Option<Mapping>
    requires |ns1| == |ns2|
    decreases ns2, 0
  {
    if |ns2| == 0 then Some(m)
    else
      match MatchNamed(ns1[0], ns2[0], m)
      case None => None
      case Some(m1) => MatchNamedList(ns1[1..], ns2[1..], m1)
  }

  function MatchNamed(n1: Named, n2: Named, m: Mapping): Option<Mapping>
    decreases n2, 0
  {
    if n1.name != n2.name then None else MatchType(n1.ty, n2.ty, m)
  }

  /** `match_trait`: both normal traits with matching paths, or both `Fn`
      traits with equal names, matching inputs and matching outputs. */
  function MatchTrait(t1: RustTrait, t2: RustTrait, m: Mapping): Option<Mapping>
    decreases t2, 1
  {
    match t2
    case Normal(pg2) => if t1.Normal? then MatchGenerics(t1.pg, pg2, m) else None
    case FnTrait(n2, i2, o2) =>
      if t1.FnTrait? && t1.name == n2 then
        match MatchList(t1.inputs, i2, m)
        case None => None
        case Some(m1) => MatchType(t1.output, o2, m1)
      else None
  }

  /** Named generics match only pairwise by name, in the same order. */
  lemma {:induction false} MatchNamedListNames(ns1: seq<Named>, ns2: seq<Named>, m: Mapping)
    requires |ns1| == |ns2| && MatchNamedList(ns1, ns2, m).Some?
    ensures forall i :: 0 <= i < |ns1| ==> ns1[i].name == ns2[i].name
    decreases |ns2|
  {
    if |ns2| > 0 {
      MatchNamedListNames(ns1[1..], ns2[1..], MatchNamed(ns1[0], ns2[0], m).value);
      forall i | 1 <= i < |ns1| ensures ns1[i].name == ns2[i].name {
        assert ns1[1..][i - 1] == ns1[i] && ns2[1..][i - 1] == ns2[i];
      }
    }
  }

  /** What a successful match demands of the concrete type: a variable is
      unbound or already bound to this very type; primitives are equal;
      pointers and references agree in kind and mutability, `dyn`/`impl` in
      kind and bounds; tuples have equal lengths; an ADT has the template's
      path, as many generics, and its named generics in the same order. */
  lemma MatchTypeAgrees(ty: RustType, tmpl: RustType, m: Mapping)
    requires MatchType(ty, tmpl, m).Some?
    ensures tmpl.TypeVar? ==> tmpl.name !in m || m[tmpl.name] == ty
    ensures tmpl.Primitive? ==> ty == tmpl
    ensures tmpl.Ref? || tmpl.Raw? ==> ty.Ref? == tmpl.Ref? && ty.Raw? == tmpl.Raw? && ty.m == tmpl.m
    ensures tmpl.Dyn? || tmpl.Impl? ==> ty.Dyn? == tmpl.Dyn? && ty.Impl? == tmpl.Impl? && ty.bounds == tmpl.bounds
    ensures tmpl.Tuple? ==> ty.Tuple? && |ty.elems| == |tmpl.elems|
    ensures tmpl.Adt? ==>
              && ty.Adt? && ty.pg.path == tmpl.pg.path
              && |ty.pg.generics| == |tmpl.pg.generics|
              && |ty.pg.namedGenerics| == |tmpl.pg.namedGenerics|
              && forall i :: 0 <= i < |ty.pg.namedGenerics| ==> ty.pg.namedGenerics[i].name == tmpl.pg.namedGenerics[i].name
  {
    if tmpl.Adt? {
      var m1 := MatchList(ty.pg.generics, tmpl.pg.generics, m).value;
      MatchNamedListNames(ty.pg.namedGenerics, tmpl.pg.namedGenerics, m1);
    }
  }

  // ---- substitute_type ----

  /** `substitute_type`: every variable replaced by its binding; the first
      unbound variable met (in traversal order) is the error, so an error
      always names a variable the mapping does not bind. */
  function SubstType(ty: RustType, m: Mapping): (r: Result<RustType, string>)
    ensures ty.TypeVar? ==> (r.Ok? <==> ty.name in m) && (r.Ok? ==> r.value == m[ty.name])
    ensures ty.Primitive? ==> r == Ok(ty)
    ensures r.Err? ==> r.error !in m
    decreases ty, 2
  {
    match ty
    case TypeVar(v) => if v in m then Ok(m[v]) else Err(v)
    case Primitive(_) => Ok(ty)
    case Ref(mu, t) => (match SubstType(t, m) case Ok(x) => Ok(Ref(mu, x)) case Err(e) => Err(e))
    case Raw(mu, t) => (match SubstType(t, m) case Ok(x) => Ok(Raw(mu, x)) case Err(e) => Err(e))
    case Boxed(t) => (match SubstType(t, m) case Ok(x) => Ok(Boxed(x)) case Err(e) => Err(e))
    case Slice(t) => (match SubstType(t, m) case Ok(x) => Ok(Slice(x)) case Err(e) => Err(e))
    case Dyn(tr, b) => (match SubstTrait(tr, m) case Ok(x) => Ok(Dyn(x, b)) case Err(e) => Err(e))
    case Impl(tr, b) => (match SubstTrait(tr, m) case Ok(x) => Ok(Impl(x, b)) case Err(e) => Err(e))
    case Tuple(ts) => (match SubstList(ts, m) case Ok(x) => Ok(Tuple(x)) case Err(e) => Err(e))
    case Adt(pg) => (match SubstGenerics(pg, m) case Ok(x) => Ok(Adt(x)) case Err(e) => Err(e))
  }

  function SubstList(ts: seq<RustType>, m: Mapping): (r: Result<seq<RustType>, string>)
    ensures r.Ok? ==> |r.value| == |ts| && forall i :: 0 <= i < |ts| ==> SubstType(ts[i], m) == Ok(r.value[i])
    ensures r.Err? ==> exists i :: 0 <= i < |ts| && SubstType(ts[i], m) == Err(r.error)
    decreases ts, 0
  {
    if |ts| == 0 then Ok([])
    else
      match SubstType(ts[0], m)
      case Err(e) => Err(e)
      case Ok(x) =>
        (match SubstList(ts[1..], m)
         case Err(e) => Err(e)
         case Ok(xs) => Ok([x] + xs))
  }

  function SubstNamedList(ns: seq<Named>, m: Mapping): (r: Result<seq<Named>, string>)
    ensures r.Ok? ==> |r.value| == |ns| && forall i :: 0 <= i < |ns| ==>
              r.value[i].name == ns[i].name && SubstType(ns[i].ty, m) == Ok(r.value[i].ty)
    ensures r.Err? ==> exists i :: 0 <= i < |ns| && SubstType(ns[i].ty, m) == Err(r.error)
    decreases ns, 0
  {
    if |ns| == 0 then Ok([])
    else
      match SubstNamed(ns[0], m)
      case Err(e) => Err(e)
      case Ok(x) =>
        (match SubstNamedList(ns[1..], m)
         case Err(e) => Err(e)
         case Ok(xs) => Ok([x] + xs))
  }

  function SubstNamed(n: Named, m: Mapping): (r: Result<Named, string>)
    ensures r.Err? ==> r.error !in m
    decreases n, 0
  {
    match SubstType(n.ty, m)
    case Err(e) => Err(e)
    case Ok(x) => Ok(Named(n.name, x))
  }

  function SubstGenerics(pg: RustPathAndGenerics, m: Mapping): (r: Result<RustPathAndGenerics, string>)
    ensures r.Err? ==> r.error !in m
    decreases pg, 1
  {
    match SubstList(pg.generics, m)
    case Err(e) => Err(e)
    case Ok(gs) =>
      (match SubstNamedList(pg.namedGenerics, m)
       case Err(e) => Err(e)
       case Ok(ns) => Ok(RustPathAndGenerics(pg.path, gs, ns)))
  }

  function SubstTrait(tr: RustTrait, m: Mapping): (r: Result<RustTrait, string>)
    ensures r.Err? ==> r.error !in m
    decreases tr, 1
  {
    match tr
    case Normal(pg) => (match SubstGenerics(pg, m) case Ok(x) => Ok(Normal(x)) case Err(e) => Err(e))
    case FnTrait(n, ins, out) =>
      match SubstList(ins, m)
      case Err(e) => Err(e)
      case Ok(xs) =>
        (match SubstType(out, m)
         case Err(e) => Err(e)
         case Ok(o) => Ok(FnTrait(n, xs, o)))
  }

  // ---- round trip: substituting the bindings of a match rebuilds the type ----

  lemma {:induction false} MatchTypeSubst(ty: RustType, tmpl: RustType, m: Mapping, m2: Mapping)
    requires MatchType(ty, tmpl, m).Some?
    ensures Extends(m, MatchType(ty, tmpl, m).value)
    ensures Extends(MatchType(ty, tmpl, m).value, m2) ==> SubstType(tmpl, m2) == Ok(ty)
    decreases tmpl, 2
  {
    match tmpl
    case TypeVar(v) =>
    case Primitive(_) =>
    case Ref(_, t2) => MatchTypeSubst(ty.inner, t2, m, m2);
    case Raw(_, t2) => MatchTypeSubst(ty.inner, t2, m, m2);
    case Boxed(t2) => MatchTypeSubst(ty.inner, t2, m, m2);
    case Slice(t2) => MatchTypeSubst(ty.inner, t2, m, m2);
    case Dyn(tr2, _) => MatchTraitSubst(ty.tr, tr2, m, m2);
    case Impl(tr2, _) => MatchTraitSubst(ty.tr, tr2, m, m2);
    case Tuple(ts2) => MatchItersSubst(ty.elems, ts2, m, m2);
    case Adt(pg2) => MatchGenericsSubst(ty.pg, pg2, m, m2);
  }

  lemma {:induction false} MatchItersSubst(tys: seq<RustType>, tmpls: seq<RustType>, m: Mapping, m2: Mapping)
    requires |tys| == |tmpls|
    requires MatchIters(tys, tmpls, m).Some?
    ensures Extends(m, MatchIters(tys, tmpls, m).value)
    ensures Extends(MatchIters(tys, tmpls, m).value, m2) ==> SubstList(tmpls, m2) == Ok(tys)
    decreases tmpls, 0
  {
    if |tmpls| > 0 {
      var m1 := MatchType(tys[0], tmpls[0], m).value;
      MatchTypeSubst(tys[0], tmpls[0], m, m2);
      MatchItersSubst(tys[1..], tmpls[1..], m1, m2);
      var final := MatchIters(tys[1..], tmpls[1..], m1).value;
      if Extends(final, m2) {
        assert Extends(m1, m2);
        SubstListCons(tmpls, m2, tys[0], tys[1..]);
        assert tys == [tys[0]] + tys[1..];
      }
    }
  }

  lemma SubstListCons(ts: seq<RustType>, m: Mapping, x: RustType, rest: seq<RustType>)
    requires |ts| > 0 && SubstType(ts[0], m) == Ok(x) && SubstList(ts[1..], m) == Ok(rest)
    ensures SubstList(ts, m) == Ok([x] + rest)
  {
  }

  lemma {:induction false} MatchNamedListSubst(ns1: seq<Named>, ns2: seq<Named>, m: Mapping, m2: Mapping)
    requires |ns1| == |ns2|
    requires MatchNamedList(ns1, ns2, m).Some?
    ensures Extends(m, MatchNamedList(ns1, ns2, m).value)
    ensures Extends(MatchNamedList(ns1, ns2, m).value, m2) ==> SubstNamedList(ns2, m2) == Ok(ns1)
    decreases ns2, 0
  {
    if |ns2| > 0 {
      var m1 := MatchNamed(ns1[0], ns2[0], m).value;
      MatchNamedSubst(ns1[0], ns2[0], m, m2);
      MatchNamedListSubst(ns1[1..], ns2[1..], m1, m2);
      var final := MatchNamedList(ns1[1..], ns2[1..], m1).value;
      if Extends(final, m2) {
        assert Extends(m1, m2);
        SubstNamedListCons(ns2, m2, ns1[0], ns1[1..]);
        assert ns1 == [ns1[0]] + ns1[1..];
      }
    }
  }

  lemma SubstNamedListCons(ns: seq<Named>, m: Mapping, x: Named, rest: seq<Named>)
    requires |ns| > 0 && SubstNamed(ns[0], m) == Ok(x) && SubstNamedList(ns[1..], m) == Ok(rest)
    ensures SubstNamedList(ns, m) == Ok([x] + rest)
  {
  }

  lemma {:induction false} MatchNamedSubst(n1: Named, n2: Named, m: Mapping, m2: Mapping)
    requires MatchNamed(n1, n2, m).Some?
    ensures Extends(m, MatchNamed(n1, n2, m).value)
    ensures Extends(MatchNamed(n1, n2, m).value, m2) ==> SubstNamed(n2, m2) == Ok(n1)
    decreases n2, 0
  {
    MatchTypeSubst(n1.ty, n2.ty, m, m2);
  }

  lemma {:induction false} MatchGenericsSubst(pg1: RustPathAndGenerics, pg2: RustPathAndGenerics, m: Mapping, m2: Mapping)
    requires MatchGenerics(pg1, pg2, m).Some?
    ensures Extends(m, MatchGenerics(pg1, pg2, m).value)
    ensures Extends(MatchGenerics(pg1, pg2, m).value, m2) ==> SubstGenerics(pg2, m2) == Ok(pg1)
    decreases pg2, 1
  {
    var m1 := MatchList(pg1.generics, pg2.generics, m).value;
    MatchItersSubst(pg1.generics, pg2.generics, m, m2);
    MatchNamedListSubst(pg1.namedGenerics, pg2.namedGenerics, m1, m2);
  }

  lemma {:induction false} MatchTraitSubst(t1: RustTrait, t2: RustTrait, m: Mapping, m2: Mapping)
    requires MatchTrait(t1, t2, m).Some?
    ensures Extends(m, MatchTrait(t1, t2, m).value)
    ensures Extends(MatchTrait(t1, t2, m).value, m2) ==> SubstTrait(t2, m2) == Ok(t1)
    decreases t2, 1
  {
    match t2
    case Normal(pg2) => MatchGenericsSubst(t1.pg, pg2, m, m2);
    case FnTrait(_, i2, o2) =>
      var m1 := MatchList(t1.inputs, i2, m).value;
      MatchItersSubst(t1.inputs, i2, m, m2);
      MatchTypeSubst(t1.output, o2, m1, m2);
  }

  // ---- substitute_vars ----

  datatype SubstitutionError = UnboundVar(name: string) | UndefinedType

  /** A type counts as defined when it is a primitive, unit, or a reference or
      raw-pointer chain down to a defined type; otherwise it must be declared. */
  predicate Defined(ty: RustType, defined: set<RustType>) {
    match ty
    case Primitive(_) => true
    case Tuple(ts) => ts == [] || ty in defined
    case Ref(_, inner) => Defined(inner, defined)
    case Raw(_, inner) => Defined(inner, defined)
    case _ => ty in defined
  }

  /** The definedness loop of `substitute_vars`, walking down the reference chain. */
  method IsDefined(ty: RustType, defined: set<RustType>) returns (b: bool)
    ensures b == Defined(ty, defined)
  {
    var cur := ty;
    while true
      invariant Defined(cur, defined) == Defined(ty, defined)
      decreases cur
    {
      match cur
      case Primitive(_) => return true;
      case Tuple(ts) =>
        if ts == [] { return true; }
        return cur in defined;
      case Ref(_, inner) => cur := inner;
      case Raw(_, inner) => cur := inner;
      case _ => return cur in defined;
    }
  }

  /** `substitute_vars`: substitution, then the definedness check. */
  function SubstituteVars(ty: RustType, m: Mapping, defined: set<RustType>): (r: Result<RustType, SubstitutionError>)
    ensures r.Ok? ==> Defined(r.value, defined) && SubstType(ty, m) == Ok(r.value)
    ensures r.Err? && r.error.UnboundVar? <==> SubstType(ty, m).Err?
    ensures r.Err? && r.error.UnboundVar? ==> SubstType(ty, m).error == r.error.name
    ensures r == Err(UndefinedType) <==> SubstType(ty, m).Ok? && !Defined(SubstType(ty, m).value, defined)
  {
    match SubstType(ty, m)
    case Err(v) => Err(UnboundVar(v))
    case Ok(t) => if Defined(t, defined) then Ok(t) else Err(UndefinedType)
  }

  /** Substituting a template type with the bindings of its match gives the
      concrete type back whenever that type is defined: the check the source
      makes with `debug_assert_eq!` after matching. */
  lemma SubstituteVarsOfMatch(ty: RustType, tmpl: RustType, defined: set<RustType>)
    requires MatchType(ty, tmpl, map[]).Some?
    requires Defined(ty, defined)
    ensures SubstituteVars(tmpl, MatchType(ty, tmpl, map[]).value, defined) == Ok(ty)
  {
    var m := MatchType(ty, tmpl, map[]).value;
    MatchTypeSubst(ty, tmpl, map[], m);
  }

  /** `substitute_vars` over a list, stopping at the first error. */
  function SubstituteAll(ts: seq<RustType>, m: Mapping, defined: set<RustType>): (r: Result<seq<RustType>, SubstitutionError>)
    ensures r.Ok? ==> |r.value| == |ts| && forall i :: 0 <= i < |ts| ==> SubstituteVars(ts[i], m, defined) == Ok(r.value[i])
    ensures r.Err? ==> exists i :: 0 <= i < |ts| && SubstituteVars(ts[i], m, defined) == Err(r.error)
  {
    if |ts| == 0 then Ok([])
    else
      match SubstituteVars(ts[0], m, defined)
      case Err(e) => Err(e)
      case Ok(x) =>
        (match SubstituteAll(ts[1..], m, defined)
         case Err(e) =>
           assert exists i :: 1 <= i < |ts| && SubstituteVars(ts[i], m, defined) == Err(e) by {
             var j :| 0 <= j < |ts[1..]| && SubstituteVars(ts[1..][j], m, defined) == Err(e);
             assert ts[j + 1] == ts[1..][j];
           }
           Err(e)
         case Ok(xs) => Ok([x] + xs))
  }

  /** `substitute_method_vars`: generics, inputs, output, then the deref
      target; the first error wins. */
  function SubstituteMethod(md: ZngurMethodDetails, m: Mapping, defined: set<RustType>): (r: Result<ZngurMethodDetails, SubstitutionError>)
    ensures r.Ok? <==> && SubstituteAll(md.data.generics, m, defined).Ok?
                       && SubstituteAll(md.data.inputs, m, defined).Ok?
                       && SubstituteVars(md.data.output, m, defined).Ok?
                       && (md.deref.Some? ==> SubstituteVars(md.deref.value.ty, m, defined).Ok?)
    ensures r.Ok? ==> && r.value.data.name == md.data.name && r.value.data.receiver == md.data.receiver
                      && r.value.data.generics == SubstituteAll(md.data.generics, m, defined).value
                      && r.value.data.inputs == SubstituteAll(md.data.inputs, m, defined).value
                      && r.value.data.output == SubstituteVars(md.data.output, m, defined).value
                      && r.value.usePath == md.usePath
                      && r.value.deref.Some? == md.deref.Some?
                      && (md.deref.Some? ==> r.value.deref.value == Deref(SubstituteVars(md.deref.value.ty, m, defined).value, md.deref.value.m))
  {
    match SubstituteAll(md.data.generics, m, defined)
    case Err(e) => Err(e)
    case Ok(gs) =>
      match SubstituteAll(md.data.inputs, m, defined)
      case Err(e) => Err(e)
      case Ok(ins) =>
        match SubstituteVars(md.data.output, m, defined)
        case Err(e) => Err(e)
        case Ok(out) =>
          var data := ZngurMethod(md.data.name, gs, md.data.receiver, ins, out);
          match md.deref
          case None => Ok(ZngurMethodDetails(data, md.usePath, None))
          case Some(d) =>
            match SubstituteVars(d.ty, m, defined)
            case Err(e) => Err(e)
            case Ok(t) => Ok(ZngurMethodDetails(data, md.usePath, Some(Deref(t, d.m))))
  }

  /** A constructor's named inputs substituted one by one, stopping at the first error. */
  function SubstituteNamedAll(ns: seq<Named>, m: Mapping, defined: set<RustType>): (r: Result<seq<Named>, SubstitutionError>)
    ensures r.Ok? ==> |r.value| == |ns| && forall i :: 0 <= i < |ns| ==>
              r.value[i].name == ns[i].name && SubstituteVars(ns[i].ty, m, defined) == Ok(r.value[i].ty)
    ensures r.Err? ==> exists i :: 0 <= i < |ns| && SubstituteVars(ns[i].ty, m, defined) == Err(r.error)
  {
    if |ns| == 0 then Ok([])
    else
      match SubstituteVars(ns[0].ty, m, defined)
      case Err(e) => Err(e)
      case Ok(x) =>
        (match SubstituteNamedAll(ns[1..], m, defined)
         case Err(e) =>
           assert exists i :: 1 <= i < |ns| && SubstituteVars(ns[i].ty, m, defined) == Err(e) by {
             var j :| 0 <= j < |ns[1..]| && SubstituteVars(ns[1..][j].ty, m, defined) == Err(e);
             assert ns[j + 1] == ns[1..][j];
           }
           Err(e)
         case Ok(xs) => Ok([Named(ns[0].name, x)] + xs))
  }

  /** Whether instantiating the template's members under `mm` panics. */
  predicate InstantiateFails(template: ZngurType, mm: Mapping, defined: set<RustType>) {
    || InstantiateMethods(template.methods, mm, defined).Err?
    || InstantiateConstructors(template.constructors, mm, defined).Err?
    || InstantiateFields(template.fields, mm, defined).Err?
  }

  /** Whether a substitution failed on an unbound variable. */
  predicate UnboundIn<T>(r: Result<T, SubstitutionError>) {
    r.Err? && r.error.UnboundVar?
  }

  /** The panic message of the `unreachable!` an unbound variable hits. */
  function UnboundMessage(v: string, member: string): string {
    "Unbound type variable " + v + " in " + member
  }

  /** The `filter_map` over methods: substituted methods kept in order, those
      with an undefined type dropped, an unbound variable a panic. */
  function InstantiateMethods(ms: seq<ZngurMethodDetails>, m: Mapping, defined: set<RustType>): (r: Result<seq<ZngurMethodDetails>, string>)
    ensures r.Ok? ==> |r.value| <= |ms|
    ensures r.Ok? ==> forall x :: x in r.value ==> exists i :: 0 <= i < |ms| && SubstituteMethod(ms[i], m, defined) == Ok(x)
    ensures r.Ok? ==> forall i :: 0 <= i < |ms| && SubstituteMethod(ms[i], m, defined).Ok? ==> SubstituteMethod(ms[i], m, defined).value in r.value
    ensures r.Ok? ==> r.value == SubstitutedMethods(ms, m, defined)
    ensures r.Err? <==> exists i :: 0 <= i < |ms| && UnboundIn(SubstituteMethod(ms[i], m, defined))
  {
    if |ms| == 0 then Ok([])
    else
      var head := SubstituteMethod(ms[0], m, defined);
      if head.Err? && head.error.UnboundVar? then
        assert UnboundIn(SubstituteMethod(ms[0], m, defined));
        Err(UnboundMessage(head.error.name, "method " + ms[0].data.name))
      else
        match InstantiateMethods(ms[1..], m, defined)
        case Err(e) =>
          MethodsUnboundLater(ms, m, defined);
          Err(e)
        case Ok(rest) =>
          MethodsNoneUnbound(ms, m, defined);
          assert forall i :: 1 <= i < |ms| ==> ms[i] == ms[1..][i - 1];
          Ok((if head.Ok? then [head.value] else []) + rest)
  }

  /** The methods whose substitution succeeds, substituted, in their order;
      a method that fails to substitute is skipped. */
  function SubstitutedMethods(ms: seq<ZngurMethodDetails>, m: Mapping, defined: set<RustType>): seq<ZngurMethodDetails>
  {
    if |ms| == 0 then []
    else
      var head := SubstituteMethod(ms[0], m, defined);
      (if head.Ok? then [head.value] else []) + SubstitutedMethods(ms[1..], m, defined)
  }

  /** An unbound variable in a later method is one in the whole list. */
  lemma MethodsUnboundLater(ms: seq<ZngurMethodDetails>, m: Mapping, defined: set<RustType>)
    requires |ms| > 0
    requires exists i :: 0 <= i < |ms[1..]| && UnboundIn(SubstituteMethod(ms[1..][i], m, defined))
    ensures exists i :: 0 <= i < |ms| && UnboundIn(SubstituteMethod(ms[i], m, defined))
  {
    var j :| 0 <= j < |ms[1..]| && UnboundIn(SubstituteMethod(ms[1..][j], m, defined));
    assert ms[1..][j] == ms[j + 1];
  }

  /** No unbound variable in the first method nor in the rest is none in the whole list. */
  lemma MethodsNoneUnbound(ms: seq<ZngurMethodDetails>, m: Mapping, defined: set<RustType>)
    requires |ms| > 0 && !UnboundIn(SubstituteMethod(ms[0], m, defined))
    requires !exists i :: 0 <= i < |ms[1..]| && UnboundIn(SubstituteMethod(ms[1..][i], m, defined))
    ensures !exists i :: 0 <= i < |ms| && UnboundIn(SubstituteMethod(ms[i], m, defined))
  {
    forall i | 1 <= i < |ms| ensures !UnboundIn(SubstituteMethod(ms[i], m, defined)) {
      assert ms[i] == ms[1..][i - 1];
    }
  }

  /** The `filter_map` over constructors: those whose inputs substitute kept
      in order with the substituted inputs, those with an undefined type
      dropped, an unbound variable a panic. */
  function InstantiateConstructors(cs: seq<ZngurConstructor>, m: Mapping, defined: set<RustType>): (r: Result<seq<ZngurConstructor>, string>)
    ensures r.Ok? ==> |r.value| <= |cs|
    ensures r.Ok? ==> forall x :: x in r.value ==>
              exists i :: 0 <= i < |cs| && x.name == cs[i].name && SubstituteNamedAll(cs[i].inputs, m, defined) == Ok(x.inputs)
    ensures r.Ok? ==> forall i :: 0 <= i < |cs| && SubstituteNamedAll(cs[i].inputs, m, defined).Ok? ==>
              ZngurConstructor(cs[i].name, SubstituteNamedAll(cs[i].inputs, m, defined).value) in r.value
    ensures r.Err? <==> exists i :: 0 <= i < |cs| && UnboundIn(SubstituteNamedAll(cs[i].inputs, m, defined))
  {
    if |cs| == 0 then Ok([])
    else
      var head := SubstituteNamedAll(cs[0].inputs, m, defined);
      if head.Err? && head.error.UnboundVar? then Err(UnboundMessage(head.error.name, "constructor"))
      else
        match InstantiateConstructors(cs[1..], m, defined)
        case Err(e) =>
          ConstructorsUnboundLater(cs, m, defined);
          Err(e)
        case Ok(rest) =>
          ConstructorsStep(cs, m, defined, rest);
          Ok((if head.Ok? then [ZngurConstructor(cs[0].name, head.value)] else []) + rest)
  }

  /** An unbound variable in a later constructor is one in the whole list. */
  lemma ConstructorsUnboundLater(cs: seq<ZngurConstructor>, m: Mapping, defined: set<RustType>)
    requires |cs| > 0
    requires exists i :: 0 <= i < |cs[1..]| && UnboundIn(SubstituteNamedAll(cs[1..][i].inputs, m, defined))
    ensures exists i :: 0 <= i < |cs| && UnboundIn(SubstituteNamedAll(cs[i].inputs, m, defined))
  {
    var j :| 0 <= j < |cs[1..]| && UnboundIn(SubstituteNamedAll(cs[1..][j].inputs, m, defined));
    assert cs[1..][j] == cs[j + 1];
  }

  /** The step of `InstantiateConstructors` that keeps the first constructor. */
  lemma ConstructorsStep(cs: seq<ZngurConstructor>, m: Mapping, defined: set<RustType>, rest: seq<ZngurConstructor>)
    requires |cs| > 0 && !UnboundIn(SubstituteNamedAll(cs[0].inputs, m, defined))
    requires |rest| <= |cs[1..]|
    requires forall x :: x in rest ==>
               exists i :: 0 <= i < |cs[1..]| && x.name == cs[1..][i].name && SubstituteNamedAll(cs[1..][i].inputs, m, defined) == Ok(x.inputs)
    requires forall i :: 0 <= i < |cs[1..]| && SubstituteNamedAll(cs[1..][i].inputs, m, defined).Ok? ==>
               ZngurConstructor(cs[1..][i].name, SubstituteNamedAll(cs[1..][i].inputs, m, defined).value) in rest
    requires !exists i :: 0 <= i < |cs[1..]| && UnboundIn(SubstituteNamedAll(cs[1..][i].inputs, m, defined))
    ensures var head := SubstituteNamedAll(cs[0].inputs, m, defined);
            var out := (if head.Ok? then [ZngurConstructor(cs[0].name, head.value)] else []) + rest;
            && |out| <= |cs|
            && (forall x :: x in out ==>
                  exists i :: 0 <= i < |cs| && x.name == cs[i].name && SubstituteNamedAll(cs[i].inputs, m, defined) == Ok(x.inputs))
            && (forall i :: 0 <= i < |cs| && SubstituteNamedAll(cs[i].inputs, m, defined).Ok? ==>
                  ZngurConstructor(cs[i].name, SubstituteNamedAll(cs[i].inputs, m, defined).value) in out)
            && !(exists i :: 0 <= i < |cs| && UnboundIn(SubstituteNamedAll(cs[i].inputs, m, defined)))
  {
    var head := SubstituteNamedAll(cs[0].inputs, m, defined);
    var front := if head.Ok? then [ZngurConstructor(cs[0].name, head.value)] else [];
    ConstructorsStepSound(cs, m, defined, front, rest);
    ConstructorsStepComplete(cs, m, defined, front, rest);
    ConstructorsStepBound(cs, m, defined);
  }

  /** Every constructor in the extended list comes from some entry of `cs`. */
  lemma ConstructorsStepSound(cs: seq<ZngurConstructor>, m: Mapping, defined: set<RustType>,
                              front: seq<ZngurConstructor>, rest: seq<ZngurConstructor>)
    requires |cs| > 0
    requires var head := SubstituteNamedAll(cs[0].inputs, m, defined);
             front == if head.Ok? then [ZngurConstructor(cs[0].name, head.value)] else []
    requires forall x :: x in rest ==>
               exists i :: 0 <= i < |cs[1..]| && x.name == cs[1..][i].name && SubstituteNamedAll(cs[1..][i].inputs, m, defined) == Ok(x.inputs)
    ensures forall x :: x in front + rest ==>
              exists i :: 0 <= i < |cs| && x.name == cs[i].name && SubstituteNamedAll(cs[i].inputs, m, defined) == Ok(x.inputs)
  {
    forall x | x in front + rest
      ensures exists i :: 0 <= i < |cs| && x.name == cs[i].name && SubstituteNamedAll(cs[i].inputs, m, defined) == Ok(x.inputs)
    {
      if x in rest {
        var j :| 0 <= j < |cs[1..]| && x.name == cs[1..][j].name && SubstituteNamedAll(cs[1..][j].inputs, m, defined) == Ok(x.inputs);
        assert cs[1..][j] == cs[j + 1];
      } else {
        assert x in front;
        assert x.name == cs[0].name && SubstituteNamedAll(cs[0].inputs, m, defined) == Ok(x.inputs);
      }
    }
  }

  /** Every entry of `cs` that instantiates lands in the extended list. */
  lemma ConstructorsStepComplete(cs: seq<ZngurConstructor>, m: Mapping, defined: set<RustType>,
                                 front: seq<ZngurConstructor>, rest: seq<ZngurConstructor>)
    requires |cs| > 0
    requires var head := SubstituteNamedAll(cs[0].inputs, m, defined);
             front == if head.Ok? then [ZngurConstructor(cs[0].name, head.value)] else []
    requires forall i :: 0 <= i < |cs[1..]| && SubstituteNamedAll(cs[1..][i].inputs, m, defined).Ok? ==>
               ZngurConstructor(cs[1..][i].name, SubstituteNamedAll(cs[1..][i].inputs, m, defined).value) in rest
    ensures forall i :: 0 <= i < |cs| && SubstituteNamedAll(cs[i].inputs, m, defined).Ok? ==>
              ZngurConstructor(cs[i].name, SubstituteNamedAll(cs[i].inputs, m, defined).value) in front + rest
  {
    forall i | 0 <= i < |cs| && SubstituteNamedAll(cs[i].inputs, m, defined).Ok?
      ensures ZngurConstructor(cs[i].name, SubstituteNamedAll(cs[i].inputs, m, defined).value) in front + rest
    {
      if i == 0 {
        assert (front + rest)[0] == ZngurConstructor(cs[0].name, SubstituteNamedAll(cs[0].inputs, m, defined).value);
      } else {
        assert cs[1..][i - 1] == cs[i];
      }
    }
  }

  /** No entry of `cs` mentions an unbound variable when neither its head nor its tail does. */
  lemma ConstructorsStepBound(cs: seq<ZngurConstructor>, m: Mapping, defined: set<RustType>)
    requires |cs| > 0 && !UnboundIn(SubstituteNamedAll(cs[0].inputs, m, defined))
    requires !exists i :: 0 <= i < |cs[1..]| && UnboundIn(SubstituteNamedAll(cs[1..][i].inputs, m, defined))
    ensures !exists i :: 0 <= i < |cs| && UnboundIn(SubstituteNamedAll(cs[i].inputs, m, defined))
  {
    forall i | 0 <= i < |cs|
      ensures !UnboundIn(SubstituteNamedAll(cs[i].inputs, m, defined))
    {
      if i > 0 {
        assert cs[1..][i - 1] == cs[i];
      }
    }
  }

  /** Fields keep their names and offsets; those with an undefined type are
      dropped, and an unbound variable is a panic. */
  function InstantiateFields(fs: seq<ZngurField>, m: Mapping, defined: set<RustType>): (r: Result<seq<ZngurField>, string>)
    ensures r.Ok? ==> |r.value| <= |fs|
    ensures r.Ok? ==> forall x :: x in r.value ==>
              exists i :: 0 <= i < |fs| && x.name == fs[i].name && x.offset == fs[i].offset &&
                          SubstituteVars(fs[i].ty, m, defined) == Ok(x.ty)
    ensures r.Ok? ==> forall i :: 0 <= i < |fs| && SubstituteVars(fs[i].ty, m, defined).Ok? ==>
              ZngurField(fs[i].name, SubstituteVars(fs[i].ty, m, defined).value, fs[i].offset) in r.value
    ensures r.Err? <==> exists i :: 0 <= i < |fs| && UnboundIn(SubstituteVars(fs[i].ty, m, defined))
  {
    if |fs| == 0 then Ok([])
    else
      var head := SubstituteVars(fs[0].ty, m, defined);
      if head.Err? && head.error.UnboundVar? then Err(UnboundMessage(head.error.name, "field " + fs[0].name))
      else
        match InstantiateFields(fs[1..], m, defined)
        case Err(e) => Err(e)
        case Ok(rest) =>
          assert forall i :: 1 <= i < |fs| ==> fs[i] == fs[1..][i - 1];
          Ok((if head.Ok? then [ZngurField(fs[0].name, head.value, fs[0].offset)] else []) + rest)
  }

  /** `try_match_template`: `Ok(None)` when the type does not match; on a
      match the template's members instantiated for the concrete type; `Err`
      for the `unreachable!` panic on an unbound variable. */
  function TryMatchTemplate(ty: RustType, template: ZngurType, defined: set<RustType>): (r: Result<Option<ZngurType>, string>)
    ensures MatchType(ty, template.ty, map[]).None? ==> r == Ok(None)
    ensures MatchType(ty, template.ty, map[]).Some? ==> (r.Ok? && r.value.Some?) || r.Err?
    ensures r.Ok? && r.value.Some? ==>
              var t := r.value.value;
              && MatchType(ty, template.ty, map[]).Some?
              && var mm := MatchType(ty, template.ty, map[]).value;
              && SubstType(template.ty, mm) == Ok(t.ty)
              && t.ty == ty && t.layout == template.layout && t.wellknownTraits == template.wellknownTraits
              && t.cppValue == template.cppValue && t.cppRef == template.cppRef
              && Ok(t.methods) == InstantiateMethods(template.methods, mm, defined)
              && Ok(t.constructors) == InstantiateConstructors(template.constructors, mm, defined)
              && Ok(t.fields) == InstantiateFields(template.fields, mm, defined)
    ensures r.Err? <==> && MatchType(ty, template.ty, map[]).Some?
                        && InstantiateFails(template, MatchType(ty, template.ty, map[]).value, defined)
  {
    match MatchType(ty, template.ty, map[])
    case None => Ok(None)
    case Some(mapping) =>
      TemplateRoundTrip(ty, template);
      match InstantiateMethods(template.methods, mapping, defined)
      case Err(e) => Err(e)
      case Ok(ms) =>
        match InstantiateConstructors(template.constructors, mapping, defined)
        case Err(e) => Err(e)
        case Ok(cs) =>
          match InstantiateFields(template.fields, mapping, defined)
          case Err(e) => Err(e)
          case Ok(fs) =>
            Ok(Some(ZngurType(ty, template.layout, template.wellknownTraits, ms, cs, fs, template.cppValue, template.cppRef)))
  }

  /** On a match, substituting the template's type with the bindings the
      match made gives back the concrete type. */
  lemma TemplateRoundTrip(ty: RustType, template: ZngurType)
    requires MatchType(ty, template.ty, map[]).Some?
    ensures SubstType(template.ty, MatchType(ty, template.ty, map[]).value) == Ok(ty)
  {
    var m := MatchType(ty, template.ty, map[]).value;
    MatchTypeSubst(ty, template.ty, map[], m);
  }

  /** `TemplateMatch::merge`: when the concrete type already has a layout,
      the match merges as if its layout were that one, so the concrete
      layout is kept and can never conflict with the template's. */
  function MergeTemplateMatch(tm: ZngurType, into: ZngurType): (r: (ZngurType, MergeResult))
    requires tm.ty == into.ty
    ensures into.layout.Some? ==> r == MergeType(tm.(layout := into.layout), into) && r.0.layout == into.layout
    ensures into.layout.None? ==> r == MergeType(tm, into)
  {
    var src := if into.layout.Some? then tm.(layout := None) else tm;
    MergeTypeLayout(src, into);
    MergeType(src, into)
  }
}
