/**
 * The lowering of the older `.zng` front end (zngur-generator/src/parser.rs):
 * parsed items are added one at a time to a `ZngurFile` of types, traits
 * and free functions, each relative to the base path of the modules that
 * enclose it. There are no aliases and no type variables, a type's layout
 * is given by `size`, `align` and `is_copy` properties, and a property this
 * front end does not know panics.
 */
module LegacyParser {
  import opened Wrappers
  import opened ZngurDef
  import opened ZngPaths
  import StrUtil
  import SeqUtil

  // ---- resolution without aliases ----

  /** The only scope this front end has: a base path, no aliases and no
      type variables. */
  function BaseScope(base: seq<string>): (s: Scope)
    ensures s.base == base && s.aliases == [] && s.typeVars == {}
  {
    Scope([], base, {})
  }

  /** Without aliases a path resolves exactly as `ParsedPath::to_zngur`
      says: absolute as written, relative after the base, `crate` first. */
  lemma BaseScopeResolves(p: ParsedPath, base: seq<string>)
    ensures ResolvePath(BaseScope(base), p) == PathToZngur(p, base)
  {
  }

  /** `ParsedRustType::to_zngur`: a named type is always an ADT at its path. */
  function TypeOf(t: ParsedRustType, base: seq<string>): (r: RustType)
    ensures t.PAdt? ==> r.Adt? && r.pg.path == PathToZngur(t.pg.path, base)
  {
    var r := TypeToZngur(t, BaseScope(base));
    if t.PAdt? then BaseScopeResolves(t.pg.path, base); r else r
  }

  /** The older `method` parser's mapping of a signature: the same receiver
      detection as the current one, and the output as written. */
  function SignatureOf(name: string, generics: seq<ParsedRustType>, args: seq<ParsedRustType>, output: ParsedRustType): (r: ParsedMethod)
    ensures r.name == name && r.generics == generics && r.output == output
    ensures r.receiver == Move <==> |args| > 0 && IsSelf(args[0])
    ensures r.receiver.ByRef? <==> |args| > 0 && !IsSelf(args[0]) && args[0].PRef? && IsSelf(args[0].inner)
    ensures r.receiver.ByRef? ==> r.receiver.m == args[0].m
    ensures r.receiver.Static? ==> r.inputs == args
    ensures !r.receiver.Static? ==> |args| > 0 && r.inputs == args[1..]
  {
    MethodOf(false, name, generics, args, output)
  }

  // ---- parsed items ----

  datatype Prop = Prop(key: string, value: nat)

  datatype ConstructorArgs = UnitArgs | TupleArgs(types: seq<ParsedRustType>)

  datatype TypeItem =
    | Properties(props: seq<Prop>)
    | Traits(traits: seq<ZngurWellknownTrait>)
    | Constructor(name: string, args: ConstructorArgs)
    | Method(m: ParsedMethod, usePath: Option<ParsedPath>)

  datatype Item =
    | Mod(path: ParsedPath, items: seq<Item>)
    | TypeDef(ty: ParsedRustType, typeItems: seq<TypeItem>)
    | TraitDef(tr: ParsedRustTrait, methods: seq<ParsedMethod>)
    | FnDef(f: ParsedMethod)

  // ---- the file being built ----

  datatype MethodEntry = MethodEntry(m: ZngurMethod, usePath: Option<seq<string>>)

  /** A type of the older `ZngurFile`: the layout is a plain size and
      alignment, and every constructor has a name. */
  datatype FileType = FileType(
    ty: RustType,
    size: nat,
    align: nat,
    isCopy: bool,
    methods: seq<MethodEntry>,
    wellknownTraits: seq<ZngurWellknownTrait>,
    constructors: seq<ZngurConstructor>)

  datatype FileValue = FileValue(types: seq<FileType>, traits: seq<ZngurTrait>, funcs: seq<ZngurFn>)

  const EMPTY_FILE := FileValue([], [], [])

  // ---- the layout properties ----

  datatype Layout = Layout(size: nat, align: nat, isCopy: bool)

  /** A type starts with size 0, alignment 0 and not `Copy`. */
  const DEFAULT_LAYOUT := Layout(0, 0, false)

  /** The properties this front end knows: `size`, `align`, and `is_copy`
      with the value 0 or 1. */
  predicate PropOk(p: Prop) {
    p.key == "size" || p.key == "align" || (p.key == "is_copy" && p.value <= 1)
  }

  /** One `key = value` property; any other property panics. */
  function ApplyProp(l: Layout, p: Prop): (r: Option<Layout>)
    ensures r.Some? <==> PropOk(p)
  {
    if p.key == "size" then Some(l.(size := p.value))
    else if p.key == "align" then Some(l.(align := p.value))
    else if p.key == "is_copy" && p.value <= 1 then Some(l.(isCopy := p.value == 1))
    else None
  }

  /** The properties of one `properties(...)` item, left to right. */
  function ApplyProps(l: Layout, ps: seq<Prop>): Option<Layout>
    decreases |ps|
  {
    if |ps| == 0 then Some(l)
    else match ApplyProps(l, ps[..|ps| - 1])
      case None => None
      case Some(l') => ApplyProp(l', ps[|ps| - 1])
  }

  /** The properties panic exactly when one of them is unknown. */
  lemma {:induction false} ApplyPropsFails(l: Layout, ps: seq<Prop>)
    ensures ApplyProps(l, ps).None? <==> exists i | 0 <= i < |ps| :: !PropOk(ps[i])
    decreases |ps|
  {
    if |ps| > 0 {
      var init := ps[..|ps| - 1];
      ApplyPropsFails(l, init);
      if exists i | 0 <= i < |init| :: !PropOk(init[i]) {
        var i :| 0 <= i < |init| && !PropOk(init[i]);
        assert ps[i] == init[i];
      }
      if exists i | 0 <= i < |ps| :: !PropOk(ps[i]) {
        var i :| 0 <= i < |ps| && !PropOk(ps[i]);
        if i < |init| { assert init[i] == ps[i]; }
      }
    }
  }

  /** `ps[i]` is the last property in `ps` with key `key`. */
  predicate LastWith(ps: seq<Prop>, key: string, i: int) {
    0 <= i < |ps| && ps[i].key == key && forall j | i < j < |ps| :: ps[j].key != key
  }

  /** No property in `ps` has key `key`. */
  predicate NoKey(ps: seq<Prop>, key: string) {
    forall i | 0 <= i < |ps| :: ps[i].key != key
  }

  /** The value a layout holds for a property key (`is_copy` as 0 or 1). */
  function Get(l: Layout, key: string): nat {
    if key == "size" then l.size else if key == "align" then l.align else if l.isCopy then 1 else 0
  }

  const KEYS: set<string> := {"size", "align", "is_copy"}

  /** A known property sets its own field to its value and leaves the other
      two fields alone. */
  lemma ApplyPropSets(l: Layout, p: Prop, key: string)
    requires PropOk(p) && key in KEYS
    ensures Get(ApplyProp(l, p).value, key) == if key == p.key then p.value else Get(l, key)
  {
    assert "size"[0] != "align"[0] && "size"[0] != "is_copy"[0] && "align"[0] != "is_copy"[0];
  }

  /** A later property overrides an earlier one: each field holds the value
      of the last property that sets it, or its old value when none does. */
  lemma {:induction false} LastPropWins(l: Layout, ps: seq<Prop>, key: string)
    requires ApplyProps(l, ps).Some? && key in KEYS
    ensures forall i | LastWith(ps, key, i) :: Get(ApplyProps(l, ps).value, key) == ps[i].value
    ensures NoKey(ps, key) ==> Get(ApplyProps(l, ps).value, key) == Get(l, key)
    decreases |ps|
  {
    if |ps| > 0 {
      var init := ps[..|ps| - 1];
      var last := ps[|ps| - 1];
      var m := ApplyProps(l, init).value;
      assert ApplyProps(l, ps) == ApplyProp(m, last);
      ApplyPropsFails(l, ps);
      ApplyPropSets(m, last, key);
      LastPropWins(l, init, key);
      forall i | LastWith(ps, key, i) ensures Get(ApplyProps(l, ps).value, key) == ps[i].value {
        LastWithSplit(ps, key, i);
      }
      if NoKey(ps, key) {
        assert ps[|ps| - 1] == last;
        forall i | 0 <= i < |init| ensures init[i].key != key { assert init[i] == ps[i]; }
      }
    }
  }

  /** The last property with a key is the final one, or the last one with
      that key before it. */
  lemma LastWithSplit(ps: seq<Prop>, key: string, i: int)
    requires LastWith(ps, key, i)
    ensures i == |ps| - 1 || (ps[|ps| - 1].key != key && LastWith(ps[..|ps| - 1], key, i))
  {
    if i < |ps| - 1 {
      var init := ps[..|ps| - 1];
      assert init[i] == ps[i];
      forall j | i < j < |init| ensures init[j].key != key { assert init[j] == ps[j]; }
    }
  }

  // ---- the items of a type ----

  datatype TypeAcc = TypeAcc(
    methods: seq<MethodEntry>,
    constructors: seq<ZngurConstructor>,
    traits: seq<ZngurWellknownTrait>,
    layout: Layout)

  const START := TypeAcc([], [], [], DEFAULT_LAYOUT)

  /** The inputs of a tuple constructor, named by position: `0`, `1`, ... */
  function TupleInputs(ts: seq<ParsedRustType>, base: seq<string>): (r: seq<Named>)
    ensures |r| == |ts|
    decreases |ts|
  {
    if |ts| == 0 then []
    else TupleInputs(ts[..|ts| - 1], base) + [Named(StrUtil.NatToString(|ts| - 1), TypeOf(ts[|ts| - 1], base))]
  }

  /** Input `i` of a tuple constructor is named `i` and has the `i`-th type. */
  lemma {:induction false} TupleInputsAt(ts: seq<ParsedRustType>, base: seq<string>)
    ensures forall i | 0 <= i < |ts| :: TupleInputs(ts, base)[i] == Named(StrUtil.NatToString(i), TypeOf(ts[i], base))
    decreases |ts|
  {
    if |ts| > 0 {
      var init := ts[..|ts| - 1];
      TupleInputsAt(init, base);
      forall i | 0 <= i < |ts| ensures TupleInputs(ts, base)[i] == Named(StrUtil.NatToString(i), TypeOf(ts[i], base)) {
        if i < |init| { assert init[i] == ts[i]; }
      }
    }
  }

  /** No two inputs of a tuple constructor share a name. */
  lemma TupleInputNamesDistinct(ts: seq<ParsedRustType>, base: seq<string>)
    ensures forall i, j | 0 <= i < j < |ts| :: TupleInputs(ts, base)[i].name != TupleInputs(ts, base)[j].name
  {
    TupleInputsAt(ts, base);
    forall i, j | 0 <= i < j < |ts| ensures TupleInputs(ts, base)[i].name != TupleInputs(ts, base)[j].name {
      StrUtil.ParseOfNatToString(i, j + 1);
      StrUtil.ParseOfNatToString(j, j + 1);
    }
  }

  function ConstructorOf(name: string, args: ConstructorArgs, base: seq<string>): ZngurConstructor {
    ZngurConstructor(Some(name), match args case UnitArgs => [] case TupleArgs(ts) => TupleInputs(ts, base))
  }

  function MethodEntryOf(m: ParsedMethod, u: Option<ParsedPath>, base: seq<string>): MethodEntry {
    MethodEntry(MethodToZngur(m, BaseScope(base)), match u case None => None case Some(p) => Some(PathToZngur(p, base)))
  }

  /** One item of a `type` block. */
  function StepTypeItem(a: TypeAcc, it: TypeItem, base: seq<string>): Option<TypeAcc> {
    match it
    case Properties(ps) =>
      (match ApplyProps(a.layout, ps) case None => None case Some(l) => Some(a.(layout := l)))
    case Traits(trs) => Some(a.(traits := a.traits + trs))
    case Constructor(name, args) => Some(a.(constructors := a.constructors + [ConstructorOf(name, args, base)]))
    case Method(m, u) => Some(a.(methods := a.methods + [MethodEntryOf(m, u, base)]))
  }

  function FoldTypeItems(a: TypeAcc, its: seq<TypeItem>, base: seq<string>): Option<TypeAcc>
    decreases |its|
  {
    if |its| == 0 then Some(a)
    else match FoldTypeItems(a, its[..|its| - 1], base)
      case None => None
      case Some(a') => StepTypeItem(a', its[|its| - 1], base)
  }

  /** The `Type` branch of `add_to_zngur_file`: the type a `type` block
      declares, or `None` when one of its properties panics. */
  function TypeOfItems(ty: ParsedRustType, its: seq<TypeItem>, base: seq<string>): Option<FileType> {
    match FoldTypeItems(START, its, base)
    case None => None
    case Some(a) => Some(FileType(TypeOf(ty, base), a.layout.size, a.layout.align, a.layout.isCopy, a.methods, a.traits, a.constructors))
  }

  /** Some property of some `properties(...)` item is unknown. */
  predicate HasBadProp(its: seq<TypeItem>) {
    exists i, j | 0 <= i < |its| && its[i].Properties? && 0 <= j < |its[i].props| :: !PropOk(its[i].props[j])
  }

  /** The traits of all `wellknown_traits(...)` items, in order. */
  function TraitsOf(its: seq<TypeItem>): seq<ZngurWellknownTrait> {
    if |its| == 0 then [] else (if its[0].Traits? then its[0].traits else []) + TraitsOf(its[1..])
  }

  /** The constructors a block's constructor items declare, in order. */
  function ItemConstructors(its: seq<TypeItem>, base: seq<string>): seq<ZngurConstructor> {
    if |its| == 0 then []
    else
      var last := its[|its| - 1];
      ItemConstructors(its[..|its| - 1], base) + (if last.Constructor? then [ConstructorOf(last.name, last.args, base)] else [])
  }

  /** The methods a block's method items declare, in order. */
  function ItemMethods(its: seq<TypeItem>, base: seq<string>): seq<MethodEntry> {
    if |its| == 0 then []
    else
      var last := its[|its| - 1];
      ItemMethods(its[..|its| - 1], base) + (if last.Method? then [MethodEntryOf(last.m, last.usePath, base)] else [])
  }

  lemma TraitsOfSnoc(its: seq<TypeItem>, it: TypeItem)
    ensures TraitsOf(its + [it]) == TraitsOf(its) + (if it.Traits? then it.traits else [])
  {
    if |its| > 0 {
      assert (its + [it])[1..] == its[1..] + [it];
      TraitsOfSnoc(its[1..], it);
    }
  }

  /** A `type` block panics exactly when one of its properties is unknown;
      otherwise its traits are those of its `wellknown_traits(...)` items,
      its constructors those of its constructor items and its methods those
      of its method items, each in order. */
  lemma {:induction false} FoldTypeItemsShape(a: TypeAcc, its: seq<TypeItem>, base: seq<string>)
    ensures FoldTypeItems(a, its, base).None? <==> HasBadProp(its)
    ensures FoldTypeItems(a, its, base).Some? ==>
              var r := FoldTypeItems(a, its, base).value;
              r.traits == a.traits + TraitsOf(its) &&
              r.constructors == a.constructors + ItemConstructors(its, base) &&
              r.methods == a.methods + ItemMethods(its, base)
    decreases |its|
  {
    if |its| > 0 {
      var init, last := its[..|its| - 1], its[|its| - 1];
      assert its == init + [last];
      FoldTypeItemsShape(a, init, base);
      TraitsOfSnoc(init, last);
      BadPropSnoc(init, last);
      match FoldTypeItems(a, init, base)
      case None =>
      case Some(m) => StepTypeItemShape(m, last, base);
    }
  }

  /** One item of a block: only a property can fail, and each kind of item
      extends its own list. */
  lemma StepTypeItemShape(m: TypeAcc, it: TypeItem, base: seq<string>)
    ensures StepTypeItem(m, it, base).None? <==>
              it.Properties? && exists j | 0 <= j < |it.props| :: !PropOk(it.props[j])
    ensures StepTypeItem(m, it, base).Some? ==>
              var r := StepTypeItem(m, it, base).value;
              r.traits == m.traits + (if it.Traits? then it.traits else []) &&
              r.constructors == m.constructors + (if it.Constructor? then [ConstructorOf(it.name, it.args, base)] else []) &&
              r.methods == m.methods + (if it.Method? then [MethodEntryOf(it.m, it.usePath, base)] else [])
  {
    if it.Properties? {
      ApplyPropsFails(m.layout, it.props);
    }
  }

  lemma BadPropSnoc(its: seq<TypeItem>, it: TypeItem)
    ensures HasBadProp(its + [it]) <==>
              HasBadProp(its) || (it.Properties? && exists j | 0 <= j < |it.props| :: !PropOk(it.props[j]))
  {
    var s := its + [it];
    if HasBadProp(s) {
      var i, j :| 0 <= i < |s| && s[i].Properties? && 0 <= j < |s[i].props| && !PropOk(s[i].props[j]);
      if i < |its| { assert its[i] == s[i]; }
    }
    if HasBadProp(its) {
      var i, j :| 0 <= i < |its| && its[i].Properties? && 0 <= j < |its[i].props| && !PropOk(its[i].props[j]);
      assert s[i] == its[i];
    }
    if it.Properties? && exists j | 0 <= j < |it.props| :: !PropOk(it.props[j]) {
      var j :| 0 <= j < |it.props| && !PropOk(it.props[j]);
      assert s[|its|] == it;
    }
  }

  /** A `type` block without `properties(...)` items keeps the defaults:
      size 0, alignment 0, not `Copy`. */
  lemma {:induction false} DefaultLayoutKept(a: TypeAcc, its: seq<TypeItem>, base: seq<string>)
    requires forall i | 0 <= i < |its| :: !its[i].Properties?
    ensures FoldTypeItems(a, its, base).Some?
    ensures FoldTypeItems(a, its, base).value.layout == a.layout
    decreases |its|
  {
    if |its| > 0 {
      DefaultLayoutKept(a, its[..|its| - 1], base);
    }
  }

  // ---- the items of a file ----

  function MethodsOf(ms: seq<ParsedMethod>, base: seq<string>): (r: seq<ZngurMethod>)
    ensures |r| == |ms|
    ensures forall i :: 0 <= i < |ms| ==> r[i] == MethodToZngur(ms[i], BaseScope(base))
  {
    if |ms| == 0 then [] else [MethodToZngur(ms[0], BaseScope(base))] + MethodsOf(ms[1..], base)
  }

  /** A free function: its path is the base followed by its name, it keeps
      its generics, has no named generics, and its receiver is dropped. */
  function FnOf(m: ParsedMethod, base: seq<string>): (r: ZngurFn)
    ensures r.path.path == base + [m.name] && r.path.namedGenerics == []
    ensures |r.path.generics| == |m.generics| && |r.inputs| == |m.inputs|
    ensures var scope := BaseScope(base);
            && r.path.generics == TypesToZngur(m.generics, scope)
            && r.inputs == TypesToZngur(m.inputs, scope)
            && r.output == TypeToZngur(m.output, scope)
  {
    var z := MethodToZngur(m, BaseScope(base));
    ZngurFn(RustPathAndGenerics(base + [z.name], z.generics, []), z.inputs, z.output)
  }

  /** `ParsedItem::add_to_zngur_file` on a file value; `None` when a
      property panics. */
  function ItemSpec(f: FileValue, item: Item, base: seq<string>): Option<FileValue>
    decreases item, 1
  {
    match item
    case Mod(path, items) => ItemsSpec(f, items, PathToZngur(path, base))
    case TypeDef(ty, its) =>
      (match TypeOfItems(ty, its, base) case None => None case Some(t) => Some(f.(types := f.types + [t])))
    case TraitDef(tr, ms) => Some(f.(traits := f.traits + [ZngurTrait(TraitToZngur(tr, BaseScope(base)), MethodsOf(ms, base))]))
    case FnDef(m) => Some(f.(funcs := f.funcs + [FnOf(m, base)]))
  }

  /** The items of a module, in order, all against the same base. */
  function ItemsSpec(f: FileValue, items: seq<Item>, base: seq<string>): Option<FileValue>
    decreases items, 0
  {
    if |items| == 0 then Some(f)
    else match ItemsSpec(f, items[..|items| - 1], base)
      case None => None
      case Some(g) => ItemSpec(g, items[|items| - 1], base)
  }

  /** `g` extends `f`: every list of the file only grows at its end. */
  predicate Extends(f: FileValue, g: FileValue) {
    f.types <= g.types && f.traits <= g.traits && f.funcs <= g.funcs
  }

  /** Adding items never removes or reorders what the file already holds. */
  lemma {:induction false} ItemExtends(f: FileValue, item: Item, base: seq<string>)
    requires ItemSpec(f, item, base).Some?
    ensures Extends(f, ItemSpec(f, item, base).value)
    decreases item, 1
  {
    match item
    case Mod(path, items) => ItemsExtend(f, items, PathToZngur(path, base));
    case TypeDef(_, _) =>
    case TraitDef(_, _) =>
    case FnDef(_) =>
  }

  lemma {:induction false} ItemsExtend(f: FileValue, items: seq<Item>, base: seq<string>)
    requires ItemsSpec(f, items, base).Some?
    ensures Extends(f, ItemsSpec(f, items, base).value)
    decreases items, 0
  {
    if |items| > 0 {
      ItemsExtend(f, items[..|items| - 1], base);
      var g := ItemsSpec(f, items[..|items| - 1], base).value;
      ItemExtends(g, items[|items| - 1], base);
    }
  }

  /** Once an item panics, the items after it change nothing: the whole
      sequence panics. */
  lemma {:induction false} ItemsFailStay(f: FileValue, items: seq<Item>, k: nat, base: seq<string>)
    requires k <= |items| && ItemsSpec(f, items[..k], base).None?
    ensures ItemsSpec(f, items, base).None?
    decreases |items|
  {
    if k < |items| {
      var init := items[..|items| - 1];
      assert init[..k] == items[..k];
      ItemsFailStay(f, init, k, base);
    } else {
      assert items[..k] == items;
    }
  }

  /** A sequence of items is the first part followed by the second. */
  lemma {:induction false} ItemsAppend(f: FileValue, xs: seq<Item>, ys: seq<Item>, base: seq<string>)
    ensures ItemsSpec(f, xs + ys, base) ==
              match ItemsSpec(f, xs, base) case None => None case Some(g) => ItemsSpec(g, ys, base)
    decreases |ys|
  {
    if |ys| == 0 {
      assert xs + ys == xs;
    } else {
      var init := ys[..|ys| - 1];
      assert (xs + ys)[..|xs + ys| - 1] == xs + init;
      assert (xs + ys)[|xs + ys| - 1] == ys[|ys| - 1];
      ItemsAppend(f, xs, init, base);
    }
  }

  /** `mod a { mod b { ... } }` adds what `mod a::b { ... }` adds. */
  lemma ModNesting(f: FileValue, a: seq<string>, b: seq<string>, items: seq<Item>, base: seq<string>)
    ensures ItemSpec(f, Mod(ParsedPath(Relative, a), [Mod(ParsedPath(Relative, b), items)]), base) ==
            ItemSpec(f, Mod(ParsedPath(Relative, a + b), items), base)
  {
    var inner := Mod(ParsedPath(Relative, b), items);
    assert [inner][..0] == [];
    assert ItemsSpec(f, [inner], base + a) == ItemSpec(f, inner, base + a);
    SeqUtil.AppendAssoc(base, a, b);
  }

  /** A module with an absolute path ignores the base it is nested in. */
  lemma AbsoluteModIgnoresBase(f: FileValue, segs: seq<string>, items: seq<Item>, base1: seq<string>, base2: seq<string>)
    ensures ItemSpec(f, Mod(ParsedPath(Absolute, segs), items), base1) ==
            ItemSpec(f, Mod(ParsedPath(Absolute, segs), items), base2)
  {
  }

  // ---- the imperative builder ----

  /** The mutable `ZngurFile` that `add_to_zngur_file` extends. */
  class ZngurFile {
    var types: seq<FileType>
    var traits: seq<ZngurTrait>
    var funcs: seq<ZngurFn>

    function Value(): FileValue
      reads this
    {
      FileValue(types, traits, funcs)
    }

    /** `ZngurFile::default()`. */
    constructor ()
      ensures Value() == EMPTY_FILE
    {
      types, traits, funcs := [], [], [];
    }

    /** `ParsedItem::add_to_zngur_file`: `false` when a property panics. */
    method AddItem(item: Item, base: seq<string>) returns (ok: bool)
      modifies this
      ensures ok <==> ItemSpec(old(Value()), item, base).Some?
      ensures ok ==> Value() == ItemSpec(old(Value()), item, base).value
      decreases item, 1
    {
      match item {
        case Mod(path, items) =>
          ok := AddItems(items, PathToZngur(path, base));
        case TypeDef(ty, its) =>
          var t := BuildType(ty, its, base);
          if t.None? {
            ok := false;
          } else {
            types := types + [t.value];
            ok := true;
          }
        case TraitDef(tr, ms) =>
          traits := traits + [ZngurTrait(TraitToZngur(tr, BaseScope(base)), MethodsOf(ms, base))];
          ok := true;
        case FnDef(m) =>
          funcs := funcs + [FnOf(m, base)];
          ok := true;
      }
    }

    /** The loop over a module's items. */
    method AddItems(items: seq<Item>, base: seq<string>) returns (ok: bool)
      modifies this
      ensures ok <==> ItemsSpec(old(Value()), items, base).Some?
      ensures ok ==> Value() == ItemsSpec(old(Value()), items, base).value
      decreases items, 0
    {
      ghost var start := Value();
      var i := 0;
      while i < |items|
        invariant 0 <= i <= |items|
        invariant ItemsSpec(start, items[..i], base) == Some(Value())
      {
        SeqUtil.PrefixSnoc(items, i);
        var itemOk := AddItem(items[i], base);
        if !itemOk {
          ItemsFailStay(start, items, i + 1, base);
          return false;
        }
        i := i + 1;
      }
      assert items[..|items|] == items;
      return true;
    }
  }

  /** The `Type` branch's loop over a block's items, updating the local
      method, constructor and trait lists and the layout variables. */
  method BuildType(ty: ParsedRustType, its: seq<TypeItem>, base: seq<string>) returns (r: Option<FileType>)
    ensures r == TypeOfItems(ty, its, base)
  {
    var methods: seq<MethodEntry>, constructors: seq<ZngurConstructor>, traits: seq<ZngurWellknownTrait> := [], [], [];
    var size: nat, align: nat, isCopy := 0, 0, false;
    var i := 0;
    while i < |its|
      invariant 0 <= i <= |its|
      invariant FoldTypeItems(START, its[..i], base) == Some(TypeAcc(methods, constructors, traits, Layout(size, align, isCopy)))
    {
      SeqUtil.PrefixSnoc(its, i);
      match its[i] {
        case Properties(ps) =>
          var ok;
          ok, size, align, isCopy := ReadProperties(ps, size, align, isCopy);
          if !ok {
            TypeItemsFailStay(its, i + 1, base);
            return None;
          }
        case Traits(trs) =>
          traits := traits + trs;
        case Constructor(name, args) =>
          constructors := constructors + [ConstructorOf(name, args, base)];
        case Method(m, u) =>
          methods := methods + [MethodEntryOf(m, u, base)];
      }
      i := i + 1;
    }
    assert its[..|its|] == its;
    r := Some(FileType(TypeOf(ty, base), size, align, isCopy, methods, traits, constructors));
  }

  /** The loop over the pairs of one `properties(...)` item; `false` when a
      pair panics. */
  method ReadProperties(ps: seq<Prop>, size0: nat, align0: nat, isCopy0: bool)
    returns (ok: bool, size: nat, align: nat, isCopy: bool)
    ensures ok <==> ApplyProps(Layout(size0, align0, isCopy0), ps).Some?
    ensures ok ==> ApplyProps(Layout(size0, align0, isCopy0), ps) == Some(Layout(size, align, isCopy))
  {
    size, align, isCopy := size0, align0, isCopy0;
    var j := 0;
    while j < |ps|
      invariant 0 <= j <= |ps|
      invariant ApplyProps(Layout(size0, align0, isCopy0), ps[..j]) == Some(Layout(size, align, isCopy))
    {
      SeqUtil.PrefixSnoc(ps, j);
      var p := ps[j];
      if p.key == "size" {
        size := p.value;
      } else if p.key == "align" {
        align := p.value;
      } else if p.key == "is_copy" && p.value <= 1 {
        isCopy := p.value == 1;
      } else {
        PropsFailStay(Layout(size0, align0, isCopy0), ps, j + 1);
        return false, size, align, isCopy;
      }
      j := j + 1;
    }
    assert ps[..|ps|] == ps;
    ok := true;
  }

  lemma {:induction false} PropsFailStay(l: Layout, ps: seq<Prop>, k: nat)
    requires k <= |ps| && ApplyProps(l, ps[..k]).None?
    ensures ApplyProps(l, ps).None?
    decreases |ps|
  {
    if k < |ps| {
      var init := ps[..|ps| - 1];
      assert init[..k] == ps[..k];
      PropsFailStay(l, init, k);
    } else {
      assert ps[..k] == ps;
    }
  }

  lemma {:induction false} TypeItemsFailStay(its: seq<TypeItem>, k: nat, base: seq<string>)
    requires k <= |its| && FoldTypeItems(START, its[..k], base).None?
    ensures FoldTypeItems(START, its, base).None?
    decreases |its|
  {
    if k < |its| {
      var init := its[..|its| - 1];
      assert init[..k] == its[..k];
      TypeItemsFailStay(init, k, base);
    } else {
      assert its[..k] == its;
    }
  }

  /** `ParsedZngFile::into_zngur_file`: the top-level items, in order,
      against the empty base; `false` when a property panics. */
  method IntoZngurFile(items: seq<Item>) returns (file: ZngurFile, ok: bool)
    ensures fresh(file)
    ensures ok <==> ItemsSpec(EMPTY_FILE, items, []).Some?
    ensures ok ==> file.Value() == ItemsSpec(EMPTY_FILE, items, []).value
  {
    file := new ZngurFile();
    ok := file.AddItems(items, []);
  }
}
