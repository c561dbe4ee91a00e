/**
 * The `.zng` front end, part three (zngur-parser/src/lib.rs): top-level
 * items, the evaluation of conditional items, and the partition of a
 * file's items into aliases and processed items.
 */
module ZngItems {
  import opened Wrappers
  import opened Cfg
  import opened Conditional
  import opened ZngPaths
  import opened ZngTypeItems
  import SeqUtil

  /** An item of an `extern "C++"` block. */
  datatype ParsedExternCppItem =
    | ExternFn(f: Spanned<ParsedMethod>)
    | ExternImpl(tr: Option<ParsedRustTrait>, ty: Spanned<ParsedRustType>, methods: seq<ParsedMethod>)

  /** A top-level (or `mod`-level) item as parsed. */
  datatype ParsedItem =
    | ConvertPanicItem(span: Span)
    | IncludeItem(text: string)
    | UnstableFeatureItem(feature: string)
    | ModItem(path: ParsedPath, items: seq<ParsedItem>)
    | TypeDecl(ty: Spanned<ParsedRustType>, typeItems: seq<Spanned<ParsedTypeItem>>, typeVars: Option<set<string>>)
    | TraitDecl(tr: Spanned<ParsedRustTrait>, methods: seq<ParsedMethod>)
    | FnDecl(f: Spanned<ParsedMethod>)
    | ExternCppDecl(externs: seq<ParsedExternCppItem>)
    | AliasDecl(alias: ParsedAlias)
    | ImportDecl(importPath: Spanned<string>)
    | MatchOnCfgDecl(cond: Condition<ParsedItem>)

  /** An item once aliases and conditionals are taken out of it. */
  datatype ProcessedItem =
    | PConvertPanic(span: Span)
    | PInclude(text: string)
    | PMod(path: ParsedPath, items: seq<ProcessedItem>, aliases: seq<ParsedAlias>)
    | PType(ty: Spanned<ParsedRustType>, typeItems: seq<Spanned<ParsedTypeItem>>, typeVars: Option<set<string>>)
    | PTrait(tr: Spanned<ParsedRustTrait>, methods: seq<ParsedMethod>)
    | PFn(f: Spanned<ParsedMethod>)
    | PExternCpp(externs: seq<ParsedExternCppItem>)
    | PImport(importPath: Spanned<string>)

  /** What processing one item gives. */
  datatype ItemOrAlias =
    | Ignore
    | Processed(item: ProcessedItem)
    | AliasOut(alias: ParsedAlias)
    | ChildItems(children: seq<ItemOrAlias>)

  // ---- partition ----

  datatype Partitioned = Partitioned(aliases: seq<ParsedAlias>, items: seq<ProcessedItem>)

  const NO_PARTS := Partitioned([], [])

  function Join(x: Partitioned, y: Partitioned): (r: Partitioned)
    ensures r.aliases == x.aliases + y.aliases && r.items == x.items + y.items
  {
    Partitioned(x.aliases + y.aliases, x.items + y.items)
  }

  /** Aliases and processed items, in order, with `Ignore` dropped and
      child items taking the place of their parent. */
  function Partition(xs: seq<ItemOrAlias>): Partitioned
    decreases xs, 1
  {
    if |xs| == 0 then NO_PARTS else Join(PartitionOne(xs[0]), Partition(xs[1..]))
  }

  function PartitionOne(x: ItemOrAlias): Partitioned
    decreases x, 0
  {
    match x
    case Ignore => NO_PARTS
    case Processed(p) => Partitioned([], [p])
    case AliasOut(a) => Partitioned([a], [])
    case ChildItems(children) => Partition(children)
  }

  lemma JoinAssoc(a: Partitioned, b: Partitioned, c: Partitioned)
    ensures Join(Join(a, b), c) == Join(a, Join(b, c))
  {
    SeqUtil.AppendAssoc(a.aliases, b.aliases, c.aliases);
    SeqUtil.AppendAssoc(a.items, b.items, c.items);
  }

  lemma {:induction false} PartitionAppend(xs: seq<ItemOrAlias>, ys: seq<ItemOrAlias>)
    ensures Partition(xs + ys) == Join(Partition(xs), Partition(ys))
    decreases |xs|
  {
    if |xs| == 0 {
      SeqUtil.AppendEmpty(ys);
      SeqUtil.AppendEmpty(Partition(ys).aliases);
      SeqUtil.AppendEmpty(Partition(ys).items);
    } else {
      SeqUtil.ConsAppend(xs, ys);
      PartitionAppend(xs[1..], ys);
      JoinAssoc(PartitionOne(xs[0]), Partition(xs[1..]), Partition(ys));
    }
  }

  /** Child items are transparent, and `Ignore` drops out. */
  lemma PartitionFlattens(children: seq<ItemOrAlias>, rest: seq<ItemOrAlias>)
    ensures Partition([ChildItems(children)] + rest) == Partition(children + rest)
    ensures Partition([Ignore] + rest) == Partition(rest)
  {
    SeqUtil.ConsTail(ChildItems(children), rest);
    SeqUtil.ConsTail(Ignore, rest);
    PartitionAppend(children, rest);
  }

  /** Items that are all processed come out unchanged, in order, with no alias. */
  lemma {:induction false} PartitionProcessed(ps: seq<ProcessedItem>)
    ensures Partition(seq(|ps|, i requires 0 <= i < |ps| => Processed(ps[i]))) == Partitioned([], ps)
    decreases |ps|
  {
    if |ps| > 0 {
      var xs := seq(|ps|, i requires 0 <= i < |ps| => Processed(ps[i]));
      var tail := seq(|ps| - 1, i requires 0 <= i < |ps| - 1 => Processed(ps[1..][i]));
      assert xs[1..] == tail;
      PartitionProcessed(ps[1..]);
      assert ps == [ps[0]] + ps[1..];
    }
  }

  lemma PartitionSnoc(xs: seq<ItemOrAlias>, i: nat)
    requires i < |xs|
    ensures Partition(xs[..i + 1]) == Join(Partition(xs[..i]), PartitionOne(xs[i]))
  {
    SeqUtil.PrefixSnoc(xs, i);
    PartitionAppend(xs[..i], [xs[i]]);
    assert [xs[i]][1..] == [];
  }

  /** `partition_parsed_items`: one pass that pushes onto two lists, and
      partitions child items recursively. */
  method PartitionItems(xs: seq<ItemOrAlias>) returns (aliases: seq<ParsedAlias>, processed: seq<ProcessedItem>)
    ensures Partitioned(aliases, processed) == Partition(xs)
    decreases xs
  {
    aliases, processed := [], [];
    var i := 0;
    while i < |xs|
      invariant 0 <= i <= |xs|
      invariant Partitioned(aliases, processed) == Partition(xs[..i])
    {
      PartitionSnoc(xs, i);
      match xs[i] {
        case Ignore =>
        case Processed(p) =>
          processed := processed + [p];
        case AliasOut(a) =>
          aliases := aliases + [a];
        case ChildItems(children) =>
          var childAliases, childItems := PartitionItems(children);
          aliases := aliases + childAliases;
          processed := processed + childItems;
      }
      i := i + 1;
    }
    assert xs[..i] == xs;
  }

  // ---- processing ----

  /** `process_parsed_item`: aliases come out as aliases, unstable features
      are ignored, a `mod` has its own items processed and partitioned, and
      a conditional item becomes the processed items of its first passing
      arm (none when no arm passes). Errors of the conditionals' guards are
      returned in order. */
  function ProcessItem(item: ParsedItem, p: CfgProvider): (r: (ItemOrAlias, seq<Diagnostic>))
    ensures r.0.AliasOut? <==> item.AliasDecl?
    ensures r.0.Ignore? <==> item.UnstableFeatureItem?
    ensures r.0.ChildItems? <==> item.MatchOnCfgDecl?
    ensures item.ModItem? ==> r.0.Processed? && r.0.item.PMod?
    ensures !item.ModItem? && !item.MatchOnCfgDecl? ==> r.1 == []
    ensures item.MatchOnCfgDecl? ==>
              var s := SelectArm(item.cond.arms, p);
              CfgDiagnostics(s.errors) <= r.1 && (s.arm.None? ==> r == (ChildItems([]), CfgDiagnostics(s.errors)))
    decreases item, 0
  {
    match item
    case AliasDecl(a) => (AliasOut(a), [])
    case ConvertPanicItem(sp) => (Processed(PConvertPanic(sp)), [])
    case UnstableFeatureItem(_) => (Ignore, [])
    case IncludeItem(t) => (Processed(PInclude(t)), [])
    case ModItem(path, items) =>
      var (xs, d) := ProcessItems(items, p);
      var parts := Partition(xs);
      (Processed(PMod(path, parts.items, parts.aliases)), d)
    case TypeDecl(ty, typeItems, typeVars) => (Processed(PType(ty, typeItems, typeVars)), [])
    case TraitDecl(tr, methods) => (Processed(PTrait(tr, methods)), [])
    case FnDecl(f) => (Processed(PFn(f)), [])
    case ExternCppDecl(externs) => (Processed(PExternCpp(externs)), [])
    case ImportDecl(path) => (Processed(PImport(path)), [])
    case MatchOnCfgDecl(cond) =>
      var s := SelectArm(cond.arms, p);
      var errs := CfgDiagnostics(s.errors);
      if s.arm.None? then (ChildItems([]), errs)
      else
        var (xs, d) := ProcessBlock(cond.arms[s.arm.value].block, p);
        (ChildItems(xs), errs + d)
  }

  function ProcessItems(items: seq<ParsedItem>, p: CfgProvider): (r: (seq<ItemOrAlias>, seq<Diagnostic>))
    ensures |r.0| == |items|
    decreases items, 1
  {
    if |items| == 0 then ([], [])
    else
      var (x, d) := ProcessItem(items[0], p);
      var (xs, ds) := ProcessItems(items[1..], p);
      ([x] + xs, d + ds)
  }

  /** A block's items are processed in order, their spans dropped. */
  function ProcessBlock(block: seq<Spanned<ParsedItem>>, p: CfgProvider): (r: (seq<ItemOrAlias>, seq<Diagnostic>))
    ensures |r.0| == |block|
    decreases block, 1
  {
    if |block| == 0 then ([], [])
    else
      var first := block[0];
      assert first.inner < first;
      var (x, d) := ProcessItem(first.inner, p);
      var (xs, ds) := ProcessBlock(block[1..], p);
      ([x] + xs, d + ds)
  }

  function Inners(block: seq<Spanned<ParsedItem>>): (r: seq<ParsedItem>)
    ensures |r| == |block| && forall i :: 0 <= i < |block| ==> r[i] == block[i].inner
  {
    seq(|block|, i requires 0 <= i < |block| => block[i].inner)
  }

  lemma {:induction false} ProcessBlockIsItems(block: seq<Spanned<ParsedItem>>, p: CfgProvider)
    ensures ProcessBlock(block, p) == ProcessItems(Inners(block), p)
    decreases |block|
  {
    if |block| > 0 {
      assert Inners(block)[1..] == Inners(block[1..]);
      ProcessBlockIsItems(block[1..], p);
    }
  }

  lemma {:induction false} ProcessItemsAppend(xs: seq<ParsedItem>, ys: seq<ParsedItem>, p: CfgProvider)
    ensures ProcessItems(xs + ys, p).0 == ProcessItems(xs, p).0 + ProcessItems(ys, p).0
    ensures ProcessItems(xs + ys, p).1 == ProcessItems(xs, p).1 + ProcessItems(ys, p).1
    decreases |xs|
  {
    if |xs| == 0 {
      SeqUtil.AppendEmpty(ys);
      SeqUtil.AppendEmpty(ProcessItems(ys, p).0);
      SeqUtil.AppendEmpty(ProcessItems(ys, p).1);
    } else {
      SeqUtil.ConsAppend(xs, ys);
      ProcessItemsAppend(xs[1..], ys, p);
      var first := ProcessItem(xs[0], p);
      var rest, tail := ProcessItems(xs[1..], p), ProcessItems(ys, p);
      SeqUtil.AppendAssoc([first.0], rest.0, tail.0);
      SeqUtil.AppendAssoc(first.1, rest.1, tail.1);
    }
  }

  /** Processing a list that starts with an item. */
  lemma ProcessItemsCons(item: ParsedItem, rest: seq<ParsedItem>, p: CfgProvider)
    ensures ProcessItems([item] + rest, p).0 == [ProcessItem(item, p).0] + ProcessItems(rest, p).0
    ensures ProcessItems([item] + rest, p).1 == ProcessItem(item, p).1 + ProcessItems(rest, p).1
  {
    SeqUtil.ConsTail(item, rest);
  }

  /** Partitioning processed items: what a file or module body yields. */
  function Parts(items: seq<ParsedItem>, p: CfgProvider): Partitioned {
    Partition(ProcessItems(items, p).0)
  }

  /** A conditional item is as if the items of its first passing arm were
      written in its place, and as if absent when no arm passes; either
      way its guards' errors come first. */
  lemma ConditionalInPlace(cond: Condition<ParsedItem>, rest: seq<ParsedItem>, p: CfgProvider)
    ensures var s := SelectArm(cond.arms, p);
            s.arm.None? ==> Parts([MatchOnCfgDecl(cond)] + rest, p) == Parts(rest, p)
    ensures var s := SelectArm(cond.arms, p);
            s.arm.Some? ==>
              var block := Inners(cond.arms[s.arm.value].block);
              Parts([MatchOnCfgDecl(cond)] + rest, p) == Parts(block + rest, p) &&
              ProcessItems([MatchOnCfgDecl(cond)] + rest, p).1 == CfgDiagnostics(s.errors) + ProcessItems(block + rest, p).1
  {
    var s := SelectArm(cond.arms, p);
    ProcessItemsCons(MatchOnCfgDecl(cond), rest, p);
    var first := ProcessItem(MatchOnCfgDecl(cond), p);
    var tail := ProcessItems(rest, p);
    if s.arm.None? {
      assert first.0 == ChildItems([]);
      PartitionFlattens([], tail.0);
      SeqUtil.AppendEmpty(tail.0);
    } else {
      var blk := cond.arms[s.arm.value].block;
      var inner := ProcessBlock(blk, p);
      assert first == (ChildItems(inner.0), CfgDiagnostics(s.errors) + inner.1);
      ProcessBlockIsItems(blk, p);
      ProcessItemsAppend(Inners(blk), rest, p);
      PartitionFlattens(inner.0, tail.0);
      SeqUtil.AppendAssoc(CfgDiagnostics(s.errors), inner.1, tail.1);
    }
  }

  /** Processing `mod` keeps the module's path and gives it exactly the
      partition of its processed items. */
  lemma ModPartitions(path: ParsedPath, items: seq<ParsedItem>, p: CfgProvider)
    ensures var r := ProcessItem(ModItem(path, items), p).0;
            r.Processed? && r.item.PMod? && r.item.path == path &&
            Partitioned(r.item.aliases, r.item.items) == Parts(items, p)
  {
  }
}
