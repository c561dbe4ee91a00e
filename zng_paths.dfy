/**
 * The `.zng` front end, part one (zngur-parser/src/lib.rs): paths, aliases
 * and scopes, the parsed type syntax and its resolution into `RustType`,
 * the method-receiver and `async` mapping, and the keyword tokens.
 */
module ZngPaths {
  import opened Wrappers
  import opened ZngurDef
  import StrUtil

  // ---- paths and aliases ----

  datatype ParsedPathStart = Absolute | Relative | Crate

  /** A path as written: `::a::b`, `a::b` or `crate::a::b`. */
  datatype ParsedPath = ParsedPath(start: ParsedPathStart, segments: seq<string>)

  /** `use <path> as <name>;` */
  datatype ParsedAlias = ParsedAlias(name: string, path: ParsedPath)

  /** `ParsedPath::to_zngur`: the written segments, after the base for a
      relative path and after `crate` for a crate path. */
  function PathToZngur(p: ParsedPath, base: seq<string>): (r: seq<string>)
    ensures |r| >= |p.segments| && r[|r| - |p.segments|..] == p.segments
    ensures p.start == Absolute ==> r == p.segments
    ensures p.start == Relative ==> |r| == |base| + |p.segments| && r[..|base|] == base
    ensures p.start == Crate ==> |r| == 1 + |p.segments| && r[0] == "crate"
  {
    match p.start
    case Absolute => p.segments
    case Relative => base + p.segments
    case Crate => ["crate"] + p.segments
  }

  /** `ParsedPath::matches_alias`: only a relative path whose first segment
      is the alias name refers to the alias. */
  predicate MatchesAlias(p: ParsedPath, alias: ParsedAlias) {
    p.start == Relative && |p.segments| > 0 && p.segments[0] == alias.name
  }

  /** `ParsedAlias::expand`: the alias's own path, resolved by its own start
      kind, followed by the rest of the path after the alias name. */
  function Expand(alias: ParsedAlias, p: ParsedPath, base: seq<string>): (r: Option<seq<string>>)
    ensures r.Some? <==> MatchesAlias(p, alias)
  {
    if MatchesAlias(p, alias) then
      match alias.path.start
      case Absolute => Some(alias.path.segments + p.segments[1..])
      case Crate => Some(["crate"] + alias.path.segments + p.segments[1..])
      case Relative => Some(base + alias.path.segments + p.segments[1..])
    else None
  }

  /** Expanding an alias replaces its name, the path's first segment, by
      the alias's path resolved exactly as `to_zngur` would resolve it. */
  lemma ExpandIsSubstitution(alias: ParsedAlias, p: ParsedPath, base: seq<string>)
    requires MatchesAlias(p, alias)
    ensures Expand(alias, p, base) == Some(PathToZngur(alias.path, base) + p.segments[1..])
    ensures PathToZngur(p, base) == base + [alias.name] + p.segments[1..]
  {
    assert p.segments == [alias.name] + p.segments[1..];
  }

  /** `find_map` of `expand` over the aliases. */
  function ExpandFirst(aliases: seq<ParsedAlias>, p: ParsedPath, base: seq<string>): (r: Option<seq<string>>)
    ensures r.None? <==> forall i :: 0 <= i < |aliases| ==> !MatchesAlias(p, aliases[i])
    decreases |aliases|
  {
    if |aliases| == 0 then None
    else if MatchesAlias(p, aliases[0]) then Expand(aliases[0], p, base)
    else
      assert forall i :: 1 <= i < |aliases| ==> aliases[i] == aliases[1..][i - 1];
      ExpandFirst(aliases[1..], p, base)
  }

  /** The first alias that matches decides the expansion. */
  lemma {:induction false} ExpandFirstIsFirst(aliases: seq<ParsedAlias>, p: ParsedPath, base: seq<string>, k: nat)
    requires k < |aliases| && MatchesAlias(p, aliases[k])
    requires forall j :: 0 <= j < k ==> !MatchesAlias(p, aliases[j])
    ensures ExpandFirst(aliases, p, base) == Expand(aliases[k], p, base)
    decreases k
  {
    if k > 0 {
      ExpandFirstIsFirst(aliases[1..], p, base, k - 1);
    }
  }

  /** Aliases of an inner list are tried before those of an outer one. */
  lemma {:induction false} ExpandFirstAppend(inner: seq<ParsedAlias>, outer: seq<ParsedAlias>, p: ParsedPath, base: seq<string>)
    ensures ExpandFirst(inner + outer, p, base) ==
              if ExpandFirst(inner, p, base).Some? then ExpandFirst(inner, p, base) else ExpandFirst(outer, p, base)
    decreases |inner|
  {
    if |inner| > 0 {
      assert (inner + outer)[1..] == inner[1..] + outer;
      ExpandFirstAppend(inner[1..], outer, p, base);
    } else {
      assert inner + outer == outer;
    }
  }

  /** The aliases, base path and template type variables in force. */
  datatype Scope = Scope(aliases: seq<ParsedAlias>, base: seq<string>, typeVars: set<string>)

  function RootScope(aliases: seq<ParsedAlias>): (s: Scope)
    ensures s.aliases == aliases && s.base == [] && s.typeVars == {}
  {
    Scope(aliases, [], {})
  }

  /** `Scope::resolve_path`: the first alias expansion, else `to_zngur`
      against the base. */
  function ResolvePath(scope: Scope, p: ParsedPath): (r: seq<string>)
    ensures ExpandFirst(scope.aliases, p, scope.base).None? ==> r == PathToZngur(p, scope.base)
    ensures p.start != Relative ==> r == PathToZngur(p, scope.base)
  {
    match ExpandFirst(scope.aliases, p, scope.base)
    case Some(e) => e
    case None => PathToZngur(p, scope.base)
  }

  /** `Scope::simple_relative_path`: the base followed by one name. */
  function SimpleRelativePath(scope: Scope, name: string): (r: seq<string>)
    ensures |r| == |scope.base| + 1 && r[..|scope.base|] == scope.base && r[|scope.base|] == name
  {
    scope.base + [name]
  }

  /** `Scope::sub_scope`: a `mod` body sees its own aliases before the
      enclosing ones and resolves relative paths against the module path. */
  function SubScope(outer: Scope, newAliases: seq<ParsedAlias>, nested: ParsedPath): (s: Scope)
    ensures s.aliases == newAliases + outer.aliases
    ensures s.base == PathToZngur(nested, outer.base)
    ensures s.typeVars == outer.typeVars
  {
    Scope(newAliases + outer.aliases, PathToZngur(nested, outer.base), outer.typeVars)
  }

  function WithTypeVars(scope: Scope, typeVars: set<string>): (s: Scope)
    ensures s.aliases == scope.aliases && s.base == scope.base && s.typeVars == typeVars
  {
    scope.(typeVars := typeVars)
  }

  /** The nearest scope wins: inside a `mod`, an alias of the module shadows
      an alias of the same name outside it, and an outer alias still applies
      when no inner one matches. */
  lemma NearestScopeWins(outer: Scope, newAliases: seq<ParsedAlias>, nested: ParsedPath, p: ParsedPath)
    ensures var sub := SubScope(outer, newAliases, nested);
            ExpandFirst(newAliases, p, sub.base).Some? ==> ResolvePath(sub, p) == ExpandFirst(newAliases, p, sub.base).value
    ensures var sub := SubScope(outer, newAliases, nested);
            ExpandFirst(newAliases, p, sub.base).None? && ExpandFirst(outer.aliases, p, sub.base).Some? ==>
              ResolvePath(sub, p) == ExpandFirst(outer.aliases, p, sub.base).value
  {
    var sub := SubScope(outer, newAliases, nested);
    ExpandFirstAppend(newAliases, outer.aliases, p, sub.base);
  }

  /** The nearest-scope example: `use ::std::string::String as MyString;`
      outside, `mod crate { use MyLocalString as MyString; type MyString … }`
      inside resolves `MyString` to `crate::MyLocalString`. */
  lemma NearestScopeExample()
    ensures var outer := RootScope([ParsedAlias("MyString", ParsedPath(Absolute, ["std", "string", "String"]))]);
            var sub := SubScope(outer, [ParsedAlias("MyString", ParsedPath(Relative, ["MyLocalString"]))], ParsedPath(Crate, []));
            ResolvePath(sub, ParsedPath(Relative, ["MyString"])) == ["crate", "MyLocalString"]
            && ResolvePath(outer, ParsedPath(Relative, ["MyString"])) == ["std", "string", "String"]
  {
  }

  // ---- parsed types ----

  datatype ParsedRustType =
    | PPrimitive(p: PrimitiveRustType)
    | PRef(m: Mutability, inner: ParsedRustType)
    | PRaw(m: Mutability, inner: ParsedRustType)
    | PBoxed(inner: ParsedRustType)
    | PSlice(inner: ParsedRustType)
    | PDyn(tr: ParsedRustTrait, bounds: seq<string>)
    | PImpl(tr: ParsedRustTrait, bounds: seq<string>)
    | PTuple(elems: seq<ParsedRustType>)
    | PAdt(pg: ParsedPathAndGenerics)

  datatype ParsedRustTrait =
    | PNormal(pg: ParsedPathAndGenerics)
    | PFnTrait(name: string, inputs: seq<ParsedRustType>, output: ParsedRustType)

  datatype ParsedNamed = ParsedNamed(name: string, ty: ParsedRustType)

  datatype ParsedPathAndGenerics = ParsedPathAndGenerics(path: ParsedPath, generics: seq<ParsedRustType>, namedGenerics: seq<ParsedNamed>)

  /** `Scope::as_type_var`: a bare one-segment relative path without
      generics that names a type variable in scope. */
  function AsTypeVar(scope: Scope, pg: ParsedPathAndGenerics): (r: Option<string>)
    ensures r.Some? <==> pg.path.start == Relative && |pg.path.segments| == 1 && pg.generics == [] &&
                         pg.namedGenerics == [] && pg.path.segments[0] in scope.typeVars
    ensures r.Some? ==> r.value == pg.path.segments[0]
  {
    if pg.path.start == Relative && pg.generics == [] && pg.namedGenerics == [] &&
       |pg.path.segments| == 1 && pg.path.segments[0] in scope.typeVars
    then Some(pg.path.segments[0])
    else None
  }

  /** `ParsedRustType::to_zngur`: every form is kept; a bare name bound as a
      type variable becomes that variable, any other path is resolved in the
      scope. */
  function TypeToZngur(t: ParsedRustType, scope: Scope): (r: RustType)
    ensures t.PPrimitive? <==> r.Primitive?
    ensures t.PRef? <==> r.Ref?
    ensures t.PRaw? <==> r.Raw?
    ensures (t.PRef? || t.PRaw?) ==> r.m == t.m
    ensures t.PTuple? <==> r.Tuple?
    ensures t.PTuple? ==> |r.elems| == |t.elems|
    ensures t.PAdt? <==> (r.Adt? || r.TypeVar?)
    ensures t.PAdt? ==> (r.TypeVar? <==> AsTypeVar(scope, t.pg).Some?)
    ensures r.TypeVar? ==> r.name in scope.typeVars
    ensures r.Adt? ==> r.pg.path == ResolvePath(scope, t.pg.path)
    decreases t, 1
  {
    match t
    case PPrimitive(p) => Primitive(p)
    case PRef(m, inner) => Ref(m, TypeToZngur(inner, scope))
    case PRaw(m, inner) => Raw(m, TypeToZngur(inner, scope))
    case PBoxed(inner) => Boxed(TypeToZngur(inner, scope))
    case PSlice(inner) => Slice(TypeToZngur(inner, scope))
    case PDyn(tr, bounds) => Dyn(TraitToZngur(tr, scope), bounds)
    case PImpl(tr, bounds) => Impl(TraitToZngur(tr, scope), bounds)
    case PTuple(elems) => Tuple(TypesToZngur(elems, scope))
    case PAdt(pg) =>
      match AsTypeVar(scope, pg)
      case Some(v) => TypeVar(v)
      case None => Adt(PgToZngur(pg, scope))
  }

  function TypesToZngur(ts: seq<ParsedRustType>, scope: Scope): (r: seq<RustType>)
    ensures |r| == |ts|
    ensures forall i :: 0 <= i < |ts| ==> r[i] == TypeToZngur(ts[i], scope)
    decreases ts, 0
  {
    if |ts| == 0 then [] else [TypeToZngur(ts[0], scope)] + TypesToZngur(ts[1..], scope)
  }

  function NamedToZngur(ns: seq<ParsedNamed>, scope: Scope): (r: seq<Named>)
    ensures |r| == |ns|
    ensures forall i :: 0 <= i < |ns| ==> r[i].name == ns[i].name
    ensures forall i :: 0 <= i < |ns| ==> r[i].ty == TypeToZngur(ns[i].ty, scope)
    decreases ns, 0
  {
    if |ns| == 0 then [] else [NamedOneToZngur(ns[0], scope)] + NamedToZngur(ns[1..], scope)
  }

  function NamedOneToZngur(n: ParsedNamed, scope: Scope): (r: Named)
    ensures r.name == n.name
    decreases n, 0
  {
    Named(n.name, TypeToZngur(n.ty, scope))
  }

  /** `ParsedRustPathAndGenerics::to_zngur`. */
  function PgToZngur(pg: ParsedPathAndGenerics, scope: Scope): (r: RustPathAndGenerics)
    ensures r.path == ResolvePath(scope, pg.path)
    ensures |r.generics| == |pg.generics| && |r.namedGenerics| == |pg.namedGenerics|
    ensures forall i :: 0 <= i < |pg.generics| ==> r.generics[i] == TypeToZngur(pg.generics[i], scope)
    ensures forall i :: 0 <= i < |pg.namedGenerics| ==> r.namedGenerics[i] == Named(pg.namedGenerics[i].name, TypeToZngur(pg.namedGenerics[i].ty, scope))
    decreases pg, 0
  {
    RustPathAndGenerics(ResolvePath(scope, pg.path), TypesToZngur(pg.generics, scope), NamedToZngur(pg.namedGenerics, scope))
  }

  /** `ParsedRustTrait::to_zngur`. */
  function TraitToZngur(tr: ParsedRustTrait, scope: Scope): RustTrait
    decreases tr, 0
  {
    match tr
    case PNormal(pg) => Normal(PgToZngur(pg, scope))
    case PFnTrait(name, inputs, output) => FnTrait(name, TypesToZngur(inputs, scope), TypeToZngur(output, scope))
  }

  // ---- resolution is the identity on fully qualified types ----

  /** Writes a `RustType` back as `.zng` syntax with absolute paths and
      type variables as bare names. */
  function Unresolve(t: RustType): ParsedRustType
    decreases t, 1
  {
    match t
    case Primitive(p) => PPrimitive(p)
    case Ref(m, inner) => PRef(m, Unresolve(inner))
    case Raw(m, inner) => PRaw(m, Unresolve(inner))
    case Boxed(inner) => PBoxed(Unresolve(inner))
    case Slice(inner) => PSlice(Unresolve(inner))
    case Dyn(tr, bounds) => PDyn(UnresolveTrait(tr), bounds)
    case Impl(tr, bounds) => PImpl(UnresolveTrait(tr), bounds)
    case Tuple(elems) => PTuple(UnresolveList(elems))
    case Adt(pg) => PAdt(UnresolvePg(pg))
    case TypeVar(name) => PAdt(ParsedPathAndGenerics(ParsedPath(Relative, [name]), [], []))
  }

  function UnresolveList(ts: seq<RustType>): (r: seq<ParsedRustType>)
    ensures |r| == |ts|
    decreases ts, 0
  {
    if |ts| == 0 then [] else [Unresolve(ts[0])] + UnresolveList(ts[1..])
  }

  function UnresolveNamed(ns: seq<Named>): (r: seq<ParsedNamed>)
    ensures |r| == |ns|
    decreases ns, 0
  {
    if |ns| == 0 then [] else [ParsedNamed(ns[0].name, Unresolve(ns[0].ty))] + UnresolveNamed(ns[1..])
  }

  function UnresolvePg(pg: RustPathAndGenerics): ParsedPathAndGenerics
    decreases pg, 0
  {
    ParsedPathAndGenerics(ParsedPath(Absolute, pg.path), UnresolveList(pg.generics), UnresolveNamed(pg.namedGenerics))
  }

  function UnresolveTrait(tr: RustTrait): ParsedRustTrait
    decreases tr, 0
  {
    match tr
    case Normal(pg) => PNormal(UnresolvePg(pg))
    case FnTrait(name, inputs, output) => PFnTrait(name, UnresolveList(inputs), Unresolve(output))
  }

  /** Every type variable occurring in the type is among `vars`. */
  predicate VarsIn(t: RustType, vars: set<string>)
    decreases t, 1
  {
    match t
    case Primitive(_) => true
    case Ref(_, inner) => VarsIn(inner, vars)
    case Raw(_, inner) => VarsIn(inner, vars)
    case Boxed(inner) => VarsIn(inner, vars)
    case Slice(inner) => VarsIn(inner, vars)
    case Dyn(tr, _) => TraitVarsIn(tr, vars)
    case Impl(tr, _) => TraitVarsIn(tr, vars)
    case Tuple(elems) => ListVarsIn(elems, vars)
    case Adt(pg) => PgVarsIn(pg, vars)
    case TypeVar(name) => name in vars
  }

  predicate ListVarsIn(ts: seq<RustType>, vars: set<string>)
    decreases ts, 0
  {
    |ts| > 0 ==> VarsIn(ts[0], vars) && ListVarsIn(ts[1..], vars)
  }

  predicate NamedVarsIn(ns: seq<Named>, vars: set<string>)
    decreases ns, 0
  {
    |ns| > 0 ==> VarsIn(ns[0].ty, vars) && NamedVarsIn(ns[1..], vars)
  }

  predicate PgVarsIn(pg: RustPathAndGenerics, vars: set<string>)
    decreases pg, 0
  {
    ListVarsIn(pg.generics, vars) && NamedVarsIn(pg.namedGenerics, vars)
  }

  predicate TraitVarsIn(tr: RustTrait, vars: set<string>)
    decreases tr, 0
  {
    match tr
    case Normal(pg) => PgVarsIn(pg, vars)
    case FnTrait(_, inputs, output) => ListVarsIn(inputs, vars) && VarsIn(output, vars)
  }

  /** Resolving a fully qualified type gives it back in any scope that
      declares its type variables: absolute paths escape every alias and
      base, and bare type-variable names become `TypeVar`s. */
  lemma {:induction false} ResolveUnresolve(t: RustType, scope: Scope)
    requires VarsIn(t, scope.typeVars)
    ensures TypeToZngur(Unresolve(t), scope) == t
    decreases t, 1
  {
    match t
    case Primitive(_) =>
    case Ref(_, inner) => ResolveUnresolve(inner, scope);
    case Raw(_, inner) => ResolveUnresolve(inner, scope);
    case Boxed(inner) => ResolveUnresolve(inner, scope);
    case Slice(inner) => ResolveUnresolve(inner, scope);
    case Dyn(tr, _) => ResolveUnresolveTrait(tr, scope);
    case Impl(tr, _) => ResolveUnresolveTrait(tr, scope);
    case Tuple(elems) => ResolveUnresolveList(elems, scope);
    case Adt(pg) => ResolveUnresolvePg(pg, scope);
    case TypeVar(_) =>
  }

  lemma {:induction false} ResolveUnresolveList(ts: seq<RustType>, scope: Scope)
    requires ListVarsIn(ts, scope.typeVars)
    ensures TypesToZngur(UnresolveList(ts), scope) == ts
    decreases ts, 0
  {
    if |ts| > 0 {
      ResolveUnresolve(ts[0], scope);
      ResolveUnresolveList(ts[1..], scope);
      assert UnresolveList(ts)[1..] == UnresolveList(ts[1..]);
    }
  }

  lemma {:induction false} ResolveUnresolveNamed(ns: seq<Named>, scope: Scope)
    requires NamedVarsIn(ns, scope.typeVars)
    ensures NamedToZngur(UnresolveNamed(ns), scope) == ns
    decreases ns, 0
  {
    if |ns| > 0 {
      ResolveUnresolve(ns[0].ty, scope);
      ResolveUnresolveNamed(ns[1..], scope);
      assert UnresolveNamed(ns)[1..] == UnresolveNamed(ns[1..]);
    }
  }

  lemma {:induction false} ResolveUnresolvePg(pg: RustPathAndGenerics, scope: Scope)
    requires PgVarsIn(pg, scope.typeVars)
    ensures AsTypeVar(scope, UnresolvePg(pg)).None?
    ensures PgToZngur(UnresolvePg(pg), scope) == pg
    decreases pg, 0
  {
    ResolveUnresolveList(pg.generics, scope);
    ResolveUnresolveNamed(pg.namedGenerics, scope);
  }

  lemma {:induction false} ResolveUnresolveTrait(tr: RustTrait, scope: Scope)
    requires TraitVarsIn(tr, scope.typeVars)
    ensures TraitToZngur(UnresolveTrait(tr), scope) == tr
    decreases tr, 0
  {
    match tr
    case Normal(pg) => ResolveUnresolvePg(pg, scope);
    case FnTrait(_, inputs, output) =>
      ResolveUnresolveList(inputs, scope);
      ResolveUnresolve(output, scope);
  }

  // ---- methods ----

  datatype ParsedMethod = ParsedMethod(
    name: string,
    receiver: MethodReceiver,
    generics: seq<ParsedRustType>,
    inputs: seq<ParsedRustType>,
    output: ParsedRustType)

  /** The receiver pattern: the bare relative path `self` without generics. */
  predicate IsSelf(t: ParsedRustType) {
    t.PAdt? && t.pg.path.start == Relative && t.pg.path.segments == ["self"] && t.pg.generics == []
  }

  const FUTURE_PATH: seq<string> := ["std", "future", "Future"]

  /** The `async fn` output: `impl ::std::future::Future<Output = out>`. */
  function AsyncOutput(out: ParsedRustType): ParsedRustType {
    PImpl(PNormal(ParsedPathAndGenerics(ParsedPath(Absolute, FUTURE_PATH), [], [ParsedNamed("Output", out)])), [])
  }

  /** The `method` parser's mapping of a parsed signature: a first argument
      `self` makes a by-value receiver, `&self` / `&mut self` a by-reference
      one, anything else a static method; the receiver leaves the inputs;
      `async` wraps the output in a future. */
  function MethodOf(isAsync: bool, name: string, generics: seq<ParsedRustType>, args: seq<ParsedRustType>, output: ParsedRustType): (r: ParsedMethod)
    ensures r.name == name && r.generics == generics
    ensures r.receiver == Move <==> |args| > 0 && IsSelf(args[0])
    ensures r.receiver.ByRef? <==> |args| > 0 && !IsSelf(args[0]) && args[0].PRef? && IsSelf(args[0].inner)
    ensures r.receiver.ByRef? ==> r.receiver.m == args[0].m
    ensures r.receiver.Static? ==> r.inputs == args
    ensures !r.receiver.Static? ==> [args[0]] + r.inputs == args
    ensures !isAsync ==> r.output == output
    ensures isAsync ==> r.output == AsyncOutput(output)
  {
    var (inputs, receiver) :=
      if |args| > 0 && IsSelf(args[0]) then (args[1..], Move)
      else if |args| > 0 && args[0].PRef? && IsSelf(args[0].inner) then (args[1..], ByRef(args[0].m))
      else (args, Static);
    ParsedMethod(name, receiver, generics, inputs, if isAsync then AsyncOutput(output) else output)
  }

  /** `ParsedMethod::to_zngur`. */
  function MethodToZngur(m: ParsedMethod, scope: Scope): (r: ZngurMethod)
    ensures r.name == m.name && r.receiver == m.receiver
    ensures |r.inputs| == |m.inputs| && |r.generics| == |m.generics|
    ensures forall i :: 0 <= i < |m.inputs| ==> r.inputs[i] == TypeToZngur(m.inputs[i], scope)
    ensures forall i :: 0 <= i < |m.generics| ==> r.generics[i] == TypeToZngur(m.generics[i], scope)
    ensures r.output == TypeToZngur(m.output, scope)
  {
    ZngurMethod(m.name, TypesToZngur(m.generics, scope), m.receiver, TypesToZngur(m.inputs, scope), TypeToZngur(m.output, scope))
  }

  /** An `async` method's output resolves to `impl ::std::future::Future<Output = out>`
      in every scope, whatever aliases are in force. */
  lemma AsyncOutputResolves(name: string, generics: seq<ParsedRustType>, args: seq<ParsedRustType>, output: ParsedRustType, scope: Scope)
    ensures MethodToZngur(MethodOf(true, name, generics, args, output), scope).output ==
              Impl(Normal(RustPathAndGenerics(FUTURE_PATH, [], [Named("Output", TypeToZngur(output, scope))])), [])
  {
    var pg := ParsedPathAndGenerics(ParsedPath(Absolute, FUTURE_PATH), [], [ParsedNamed("Output", output)]);
    assert NamedToZngur(pg.namedGenerics, scope) == [Named("Output", TypeToZngur(output, scope))];
    assert ResolvePath(scope, pg.path) == FUTURE_PATH;
    assert PgToZngur(pg, scope) == RustPathAndGenerics(FUTURE_PATH, [], [Named("Output", TypeToZngur(output, scope))]);
    assert TypeToZngur(AsyncOutput(output), scope) == Impl(TraitToZngur(PNormal(pg), scope), []);
  }

  // ---- tokens ----

  datatype Token =
    | Arrow | ArrowArm | AngleOpen | AngleClose | BracketOpen | BracketClose
    | Colon | ColonColon | ParenOpen | ParenClose | BraceOpen | BraceClose
    | And | Star | Sharp | Plus | Eq | Question | Comma | Semicolon | Pipe
    | Underscore | Dot | Bang
    | KwAs | KwAsync | KwDyn | KwUse | KwFor | KwMod | KwCrate | KwType | KwTrait
    | KwFn | KwMut | KwConst | KwExtern | KwImpl | KwImport | KwIf | KwElse | KwMatch
    | Ident(ident: string)
    | StrLit(text: string)
    | Number(n: nat)

  const KEYWORDS: seq<string> := ["as", "async", "dyn", "mod", "type", "trait", "crate", "fn", "mut",
                                  "const", "use", "for", "extern", "impl", "import", "if", "else", "match"]

  /** `Token::ident_or_kw`. */
  function IdentOrKw(s: string): Token {
    match s
    case "as" => KwAs
    case "async" => KwAsync
    case "dyn" => KwDyn
    case "mod" => KwMod
    case "type" => KwType
    case "trait" => KwTrait
    case "crate" => KwCrate
    case "fn" => KwFn
    case "mut" => KwMut
    case "const" => KwConst
    case "use" => KwUse
    case "for" => KwFor
    case "extern" => KwExtern
    case "impl" => KwImpl
    case "import" => KwImport
    case "if" => KwIf
    case "else" => KwElse
    case "match" => KwMatch
    case _ => Ident(s)
  }

  /** `impl Display for Token`. */
  function TokenToString(t: Token): string {
    match t
    case Arrow => "->"
    case ArrowArm => "=>"
    case AngleOpen => "<"
    case AngleClose => ">"
    case BracketOpen => "["
    case BracketClose => "]"
    case ParenOpen => "("
    case ParenClose => ")"
    case BraceOpen => "{"
    case BraceClose => "}"
    case Colon => ":"
    case ColonColon => "::"
    case And => "&"
    case Star => "*"
    case Sharp => "#"
    case Plus => "+"
    case Eq => "="
    case Question => "?"
    case Comma => ","
    case Semicolon => ";"
    case Pipe => "|"
    case Underscore => "_"
    case Dot => "."
    case Bang => "!"
    case KwAs => "as"
    case KwAsync => "async"
    case KwDyn => "dyn"
    case KwUse => "use"
    case KwFor => "for"
    case KwMod => "mod"
    case KwCrate => "crate"
    case KwType => "type"
    case KwTrait => "trait"
    case KwFn => "fn"
    case KwMut => "mut"
    case KwConst => "const"
    case KwExtern => "extern"
    case KwImpl => "impl"
    case KwImport => "import"
    case KwIf => "if"
    case KwElse => "else"
    case KwMatch => "match"
    case Ident(i) => i
    case Number(n) => StrUtil.NatToString(n)
    case StrLit(s) => "\"" + s + "\""
  }

  /** Displaying the token of any word gives the word back, and exactly the
      eighteen keyword spellings become keyword tokens. */
  lemma IdentOrKwRoundTrip(s: string)
    ensures TokenToString(IdentOrKw(s)) == s
  {
  }

  /** A word lexes as an identifier exactly when it is not a keyword. */
  lemma IdentOrKwKeyword(s: string)
    ensures IdentOrKw(s).Ident? <==> s !in KEYWORDS
  {
  }
}
