/** `zngur-autozng`: reads rustdoc's JSON index and prints a skeleton `.zng`
    file declaring every struct and enum with its inherent methods. Standard
    output is one string; `None` stands for a panic (`todo!`, `unwrap` on a
    missing name, or indexing the map with an unknown id). */
module AutoZng {
  import opened Wrappers
  import opened StrUtil

  /** `RustdocRustType`. */
  datatype RustdocType =
    | BorrowedRef(mutable: bool, inner: RustdocType)
    | RawPointer(mutable: bool, inner: RustdocType)
    | Primitive(name: string)
    | Generic(name: string)
    | Tuple(elems: seq<RustdocType>)
    | Slice(elem: RustdocType)
    | ResolvedPath(name: string)
    | QualifiedPath

  /** `render`: references around a named type; the other shapes are
      `todo!()`. */
  function Render(t: RustdocType): (r: Option<string>)
    ensures t.Primitive? || t.Generic? || t.ResolvedPath? ==> r == Some(t.name)
    ensures t.RawPointer? || t.Tuple? || t.Slice? || t.QualifiedPath? ==> r == None
  {
    match t
    case BorrowedRef(mutable, inner) =>
      (match Render(inner)
       case None => None
       case Some(s) => Some((if mutable then "&mut " else "&") + s))
    case Primitive(n) => Some(n)
    case Generic(n) => Some(n)
    case ResolvedPath(n) => Some(n)
    case _ => None
  }

  /** The type under all the references. */
  function Base(t: RustdocType): RustdocType {
    if t.BorrowedRef? then Base(t.inner) else t
  }

  /** The reference markers, outermost first. */
  function RefPrefix(t: RustdocType): string {
    if t.BorrowedRef? then (if t.mutable then "&mut " else "&") + RefPrefix(t.inner) else ""
  }

  /** A type renders exactly when the type under its references is named,
      and then as the reference markers followed by the name. */
  lemma {:induction false} RenderIsPrefixAndName(t: RustdocType)
    ensures Render(t).Some? <==> Base(t).Primitive? || Base(t).Generic? || Base(t).ResolvedPath?
    ensures Render(t).Some? ==> Render(t).value == RefPrefix(t) + Base(t).name
  {
    if t.BorrowedRef? {
      RenderIsPrefixAndName(t.inner);
    }
  }

  datatype FunctionDecl = FunctionDecl(inputs: seq<(string, RustdocType)>, output: Option<RustdocType>)

  /** `RustdocItemInner`; `forTrait` is whether the impl names a trait. */
  datatype ItemInner =
    | Function(decl: FunctionDecl)
    | Struct(impls: seq<string>)
    | Impl(items: seq<string>, forTrait: bool)
    | Module | StructField | Import | AssocType | Variant | TypeAlias
    | Enum(impls: seq<string>)

  datatype Item = Item(name: Option<string>, inner: ItemInner)

  type Index = map<string, Item>

  /** Every part is present. */
  predicate AllSome(parts: seq<Option<string>>) {
    forall i :: 0 <= i < |parts| ==> parts[i].Some?
  }

  function Values(parts: seq<Option<string>>): (r: seq<string>)
    requires AllSome(parts)
    ensures |r| == |parts|
  {
    if |parts| == 0 then [] else Values(parts[..|parts| - 1]) + [parts[|parts| - 1].value]
  }

  /** The parts joined by `sep`, or a panic if any part panics. */
  function JoinAll(parts: seq<Option<string>>, sep: string): Option<string> {
    if AllSome(parts) then Some(Join(Values(parts), sep)) else None
  }

  /** The first `k` parts, joined by `sep`, have been printed after `head`. */
  predicate Printed(parts: seq<Option<string>>, k: nat, sep: string, head: string, out: string) {
    k <= |parts| && AllSome(parts[..k]) && out == head + Join(Values(parts[..k]), sep)
  }

  /** Printing part `k`, preceded by the separator unless it is the first. */
  lemma PrintedStep(parts: seq<Option<string>>, k: nat, sep: string, head: string, out: string)
    requires Printed(parts, k, sep, head, out) && k < |parts| && parts[k].Some?
    ensures Printed(parts, k + 1, sep, head, (if k == 0 then out else out + sep) + parts[k].value)
  {
    assert parts[..k + 1][..k] == parts[..k];
    if k > 0 {
      JoinAppend(Values(parts[..k]), parts[k].value, sep);
    }
  }

  /** All parts printed: the output is the joined text. */
  /** Printing part `k` when nothing separates the parts. */
  lemma PrintedNext(parts: seq<Option<string>>, k: nat, out: string, piece: string)
    requires Printed(parts, k, "", "", out) && k < |parts| && parts[k] == Some(piece)
    ensures Printed(parts, k + 1, "", "", out + piece)
  {
    PrintedStep(parts, k, "", "", out);
    assert out + "" == out;
  }

  lemma PrintedAll(parts: seq<Option<string>>, sep: string, head: string, out: string)
    requires Printed(parts, |parts|, sep, head, out)
    ensures JoinAll(parts, sep).Some? && out == head + JoinAll(parts, sep).value
  {
    assert parts[..|parts|] == parts;
  }

  /** A part that panics makes the whole panic. */
  lemma PartPanics(parts: seq<Option<string>>, k: nat, sep: string)
    requires k < |parts| && parts[k].None?
    ensures JoinAll(parts, sep).None?
  {
  }

  /** One parameter: `self` literally, anything else rendered. */
  function ParamText(p: (string, RustdocType)): Option<string> {
    if p.0 == "self" then Some("self") else Render(p.1)
  }

  function ParamTexts(inputs: seq<(string, RustdocType)>): (r: seq<Option<string>>)
    ensures |r| == |inputs|
  {
    if |inputs| == 0 then [] else ParamTexts(inputs[..|inputs| - 1]) + [ParamText(inputs[|inputs| - 1])]
  }

  lemma {:induction false} ParamTextsAt(inputs: seq<(string, RustdocType)>, k: nat)
    requires k < |inputs|
    ensures ParamTexts(inputs)[k] == ParamText(inputs[k])
  {
    if k < |inputs| - 1 {
      ParamTextsAt(inputs[..|inputs| - 1], k);
    }
  }

  /** ` -> out` when there is an output. */
  function OutputText(output: Option<RustdocType>): Option<string> {
    match output
    case None => Some("")
    case Some(t) => (match Render(t) case None => None case Some(s) => Some(" -> " + s))
  }

  /** A method line: `    fn name(params)[ -> out];`. */
  function MethodLine(name: Option<string>, decl: FunctionDecl): Option<string> {
    if name.None? then None
    else match JoinAll(ParamTexts(decl.inputs), ", ")
      case None => None
      case Some(params) =>
        match OutputText(decl.output)
        case None => None
        case Some(out) => Some("    fn " + name.value + "(" + params + ")" + out + ";\n")
  }

  /** An item of an impl: a method line for a function, nothing otherwise. */
  function ItemText(index: Index, key: string): Option<string> {
    if key !in index then None
    else match index[key].inner
      case Function(decl) => MethodLine(index[key].name, decl)
      case _ => Some("")
  }

  function ItemTexts(index: Index, keys: seq<string>): (r: seq<Option<string>>)
    ensures |r| == |keys|
  {
    if |keys| == 0 then [] else ItemTexts(index, keys[..|keys| - 1]) + [ItemText(index, keys[|keys| - 1])]
  }

  lemma {:induction false} ItemTextsAt(index: Index, keys: seq<string>, k: nat)
    requires k < |keys|
    ensures ItemTexts(index, keys)[k] == ItemText(index, keys[k])
  {
    if k < |keys| - 1 {
      ItemTextsAt(index, keys[..|keys| - 1], k);
    }
  }

  /** An impl of a type: its methods, or nothing for a trait impl. */
  function ImplText(index: Index, key: string): Option<string> {
    if key !in index then None
    else match index[key].inner
      case Impl(items, forTrait) => if forTrait then Some("") else JoinAll(ItemTexts(index, items), "")
      case _ => Some("")
  }

  function ImplTexts(index: Index, keys: seq<string>): (r: seq<Option<string>>)
    ensures |r| == |keys|
  {
    if |keys| == 0 then [] else ImplTexts(index, keys[..|keys| - 1]) + [ImplText(index, keys[|keys| - 1])]
  }

  lemma {:induction false} ImplTextsAt(index: Index, keys: seq<string>, k: nat)
    requires k < |keys|
    ensures ImplTexts(index, keys)[k] == ImplText(index, keys[k])
  {
    if k < |keys| - 1 {
      ImplTextsAt(index, keys[..|keys| - 1], k);
    }
  }

  /** The impls of a struct or an enum. */
  function TypeImpls(inner: ItemInner): Option<seq<string>> {
    match inner
    case Struct(impls) => Some(impls)
    case Enum(impls) => Some(impls)
    case _ => None
  }

  const HEAP_ALLOCATED_LINE := "    #heap_allocated;\n"

  /** A struct or enum: its `type crate::Name { … }` block; nothing for any
      other item. */
  function TypeBlock(index: Index, item: Item): Option<string> {
    match TypeImpls(item.inner)
    case None => Some("")
    case Some(impls) =>
      if item.name.None? then None
      else match JoinAll(ImplTexts(index, impls), "")
        case None => None
        case Some(body) => Some("type crate::" + item.name.value + " {\n" + HEAP_ALLOCATED_LINE + body + "}\n")
  }

  function EntryTexts(index: Index, entries: seq<Item>): (r: seq<Option<string>>)
    ensures |r| == |entries|
  {
    if |entries| == 0 then []
    else EntryTexts(index, entries[..|entries| - 1]) + [TypeBlock(index, entries[|entries| - 1])]
  }

  lemma {:induction false} EntryTextsAt(index: Index, entries: seq<Item>, k: nat)
    requires k < |entries|
    ensures EntryTexts(index, entries)[k] == TypeBlock(index, entries[k])
  {
    if k < |entries| - 1 {
      EntryTextsAt(index, entries[..|entries| - 1], k);
    }
  }

  /** Everything `main` prints, given the items of the index in the map's
      iteration order. */
  function Output(index: Index, entries: seq<Item>): Option<string> {
    JoinAll(EntryTexts(index, entries), "")
  }

  /** A type block opens with its declaration and the heap-allocation
      marker and closes with `}`. */
  lemma TypeBlockShape(index: Index, item: Item)
    requires TypeImpls(item.inner).Some? && TypeBlock(index, item).Some?
    ensures item.name.Some?
    ensures StartsWith(TypeBlock(index, item).value, "type crate::" + item.name.value + " {\n" + HEAP_ALLOCATED_LINE)
    ensures EndsWith(TypeBlock(index, item).value, "}\n")
  {
  }

  /** A trait impl contributes nothing, whatever its items are. */
  lemma TraitImplsSkipped(index: Index, key: string)
    requires key in index && index[key].inner.Impl? && index[key].inner.forTrait
    ensures ImplText(index, key) == Some("")
  {
  }

  /** The parameter loop of `main` for one function. */
  method EmitMethod(name: Option<string>, decl: FunctionDecl) returns (out: string, ok: bool)
    ensures ok <==> MethodLine(name, decl).Some?
    ensures ok ==> out == MethodLine(name, decl).value
  {
    if name.None? {
      return "", false;
    }
    out := "    fn " + name.value + "(";
    ghost var head := out;
    ghost var parts := ParamTexts(decl.inputs);
    var first := true;
    for k := 0 to |decl.inputs|
      invariant first <==> k == 0
      invariant Printed(parts, k, ", ", head, out)
    {
      ghost var before := out;
      if !first {
        out := out + ", ";
      }
      first := false;
      ParamTextsAt(decl.inputs, k);
      var piece: string;
      if decl.inputs[k].0 == "self" {
        piece := "self";
      } else {
        var r := Render(decl.inputs[k].1);
        if r.None? {
          PartPanics(parts, k, ", ");
          return out, false;
        }
        piece := r.value;
      }
      PrintedStep(parts, k, ", ", head, before);
      out := out + piece;
    }
    PrintedAll(parts, ", ", head, out);
    out := out + ")";
    if decl.output.Some? {
      var r := Render(decl.output.value);
      if r.None? {
        return out, false;
      }
      out := out + " -> " + r.value;
    }
    out := out + ";\n";
    ok := true;
  }

  /** One item of an impl: its method line if it is a function. */
  method EmitItem(index: Index, key: string) returns (out: string, ok: bool)
    ensures ok <==> ItemText(index, key).Some?
    ensures ok ==> out == ItemText(index, key).value
  {
    if key !in index {
      return "", false;
    }
    var item := index[key];
    if item.inner.Function? {
      out, ok := EmitMethod(item.name, item.inner.decl);
    } else {
      out, ok := "", true;
    }
  }

  /** One inherent impl: the method lines of its functions, in order. */
  method EmitImplItems(index: Index, items: seq<string>) returns (out: string, ok: bool)
    ensures ok <==> JoinAll(ItemTexts(index, items), "").Some?
    ensures ok ==> out == JoinAll(ItemTexts(index, items), "").value
  {
    out := "";
    ghost var parts := ItemTexts(index, items);
    for k := 0 to |items|
      invariant Printed(parts, k, "", "", out)
    {
      ItemTextsAt(index, items, k);
      var piece, pieceOk := EmitItem(index, items[k]);
      if !pieceOk {
        PartPanics(parts, k, "");
        return out, false;
      }
      PrintedNext(parts, k, out, piece);
      out := out + piece;
    }
    PrintedAll(parts, "", "", out);
    ok := true;
  }

  /** One impl of a type: nothing for a trait impl. */
  method EmitImplEntry(index: Index, key: string) returns (out: string, ok: bool)
    ensures ok <==> ImplText(index, key).Some?
    ensures ok ==> out == ImplText(index, key).value
  {
    if key !in index {
      return "", false;
    }
    var imp := index[key];
    if imp.inner.Impl? && !imp.inner.forTrait {
      out, ok := EmitImplItems(index, imp.inner.items);
    } else {
      out, ok := "", true;
    }
  }

  /** The impls of one struct or enum, in order. */
  method EmitImpls(index: Index, impls: seq<string>) returns (out: string, ok: bool)
    ensures ok <==> JoinAll(ImplTexts(index, impls), "").Some?
    ensures ok ==> out == JoinAll(ImplTexts(index, impls), "").value
  {
    out := "";
    ghost var parts := ImplTexts(index, impls);
    for k := 0 to |impls|
      invariant Printed(parts, k, "", "", out)
    {
      ImplTextsAt(index, impls, k);
      var piece, pieceOk := EmitImplEntry(index, impls[k]);
      if !pieceOk {
        PartPanics(parts, k, "");
        return out, false;
      }
      PrintedNext(parts, k, out, piece);
      out := out + piece;
    }
    PrintedAll(parts, "", "", out);
    ok := true;
  }

  /** One struct or enum: its block; nothing for any other item. */
  method EmitType(index: Index, item: Item) returns (out: string, ok: bool)
    ensures ok <==> TypeBlock(index, item).Some?
    ensures ok ==> out == TypeBlock(index, item).value
  {
    var impls := TypeImpls(item.inner);
    if impls.None? {
      return "", true;
    }
    if item.name.None? {
      return "", false;
    }
    var body;
    body, ok := EmitImpls(index, impls.value);
    out := "type crate::" + item.name.value + " {\n" + HEAP_ALLOCATED_LINE + body;
    if ok {
      out := out + "}\n";
    }
  }

  /** `main` after parsing: every item of the index, in the map's iteration
      order. */
  method EmitIndex(index: Index, entries: seq<Item>) returns (out: string, ok: bool)
    ensures ok <==> Output(index, entries).Some?
    ensures ok ==> out == Output(index, entries).value
  {
    out := "";
    ghost var parts := EntryTexts(index, entries);
    for k := 0 to |entries|
      invariant Printed(parts, k, "", "", out)
    {
      EntryTextsAt(index, entries, k);
      var block, blockOk := EmitType(index, entries[k]);
      if !blockOk {
        PartPanics(parts, k, "");
        return out, false;
      }
      PrintedNext(parts, k, out, block);
      out := out + block;
    }
    PrintedAll(parts, "", "", out);
    ok := true;
  }
}
