/**
 * The `.zng` front end, part two (zngur-parser/src/lib.rs): the body of a
 * `type` declaration, processed item by item into the pieces of a
 * `ZngurType`, with layout-policy validation and conditional blocks.
 */
module ZngTypeItems {
  import opened Wrappers
  import opened SeqUtil
  import opened StrUtil
  import opened ZngurDef
  import opened Cfg
  import opened Conditional
  import opened ZngPaths

  /** A reported error: its message and, where the source attaches one, its span. */
  datatype Diagnostic = Diagnostic(message: string, span: Option<Span>)

  const DUPLICATE_LAYOUT := "Duplicate layout policy found"
  const NO_SIZE := "Size is not declared for this type"
  const NO_ALIGN := "Align is not declared for this type"
  const UNKNOWN_PROPERTY := "Unknown property"
  const DEREF_NEEDS_REF := "Deref needs reference receiver"
  const UNSIZED_LAYOUT := "Duplicate layout policy found for unsized type."

  /** Errors of a conditional's guards, which carry no span here. */
  function CfgDiagnostics(errors: seq<string>): (r: seq<Diagnostic>)
    ensures |r| == |errors| && forall i :: 0 <= i < |errors| ==> r[i] == Diagnostic(errors[i], None)
  {
    seq(|errors|, i requires 0 <= i < |errors| => Diagnostic(errors[i], None))
  }

  // ---- parsed type items ----

  /** One `key = value` of `#layout(...)`. */
  datatype LayoutProperty = LayoutProperty(key: Spanned<string>, value: nat)

  datatype ParsedLayoutPolicy = PStackAllocated(props: seq<LayoutProperty>) | PHeapAllocated | POnlyByRef

  datatype ParsedConstructorArgs = UnitArgs | TupleArgs(tys: seq<ParsedRustType>) | NamedArgs(fields: seq<ParsedNamed>)

  datatype ParsedTypeItem =
    | LayoutItem(span: Span, policy: ParsedLayoutPolicy)
    | TraitsItem(traits: seq<Spanned<ZngurWellknownTrait>>)
    | ConstructorItem(ctorName: Option<string>, args: ParsedConstructorArgs)
    | FieldItem(fieldName: string, fieldTy: ParsedRustType, offset: nat)
    | MethodItem(data: ParsedMethod, usePath: Option<ParsedPath>, deref: Option<ParsedRustType>)
    | CppValueItem(field: string, cppType: string)
    | CppRefItem(cppType: string)
    | MatchOnCfgItem(cond: Condition<ParsedTypeItem>)

  // ---- #layout(size = .., align = ..) ----

  datatype LayoutProps = LayoutProps(size: Option<nat>, align: Option<nat>, diags: seq<Diagnostic>)

  /** The property loop of `#layout`: a later `size` or `align` overrides an
      earlier one, and every other key is reported as unknown, in order. */
  function ReadLayoutProps(props: seq<LayoutProperty>): (r: LayoutProps)
    ensures |r.diags| <= |props|
    ensures forall d :: d in r.diags ==> d.message == UNKNOWN_PROPERTY
    ensures r.diags == UnknownKeyDiags(props)
    decreases |props|
  {
    if |props| == 0 then LayoutProps(None, None, [])
    else
      var n := |props| - 1;
      var prev := ReadLayoutProps(props[..n]);
      var last := props[n];
      UnknownKeyDiagsSnoc(props[..n], last);
      assert props[..n] + [last] == props;
      if last.key.inner == "size" then prev.(size := Some(last.value))
      else if last.key.inner == "align" then prev.(align := Some(last.value))
      else prev.(diags := prev.diags + [Diagnostic(UNKNOWN_PROPERTY, Some(last.key.span))])
  }

  /** The report for one property: none for `size` and `align`, an unknown
      property at the key's span otherwise. */
  function UnknownKeyDiag(p: LayoutProperty): seq<Diagnostic> {
    if p.key.inner == "size" || p.key.inner == "align" then []
    else [Diagnostic(UNKNOWN_PROPERTY, Some(p.key.span))]
  }

  /** The reports of the properties, taken from the first to the last. */
  function UnknownKeyDiags(props: seq<LayoutProperty>): seq<Diagnostic>
    decreases |props|
  {
    if |props| == 0 then [] else UnknownKeyDiag(props[0]) + UnknownKeyDiags(props[1..])
  }

  /** One more property adds its own report after the earlier ones. */
  lemma {:induction false} UnknownKeyDiagsSnoc(props: seq<LayoutProperty>, p: LayoutProperty)
    ensures UnknownKeyDiags(props + [p]) == UnknownKeyDiags(props) + UnknownKeyDiag(p)
    decreases |props|
  {
    if |props| == 0 {
      assert props + [p] == [p];
      assert [p][1..] == [];
    } else {
      assert (props + [p])[1..] == props[1..] + [p];
      UnknownKeyDiagsSnoc(props[1..], p);
    }
  }

  /** Report `k` is about the `k`-th property whose key is neither `size`
      nor `align`, at that key's span: one report per unknown key, in order. */
  lemma {:induction false} UnknownKeyDiagsAt(props: seq<LayoutProperty>, i: nat)
    requires i < |props|
    ensures var d := UnknownKeyDiags(props);
            var k := |UnknownKeyDiags(props[..i])|;
            props[i].key.inner != "size" && props[i].key.inner != "align" ==>
              k < |d| && d[k] == Diagnostic(UNKNOWN_PROPERTY, Some(props[i].key.span))
    decreases |props|
  {
    var n := |props| - 1;
    UnknownKeyDiagsSnoc(props[..n], props[n]);
    assert props[..n] + [props[n]] == props;
    if i < n {
      UnknownKeyDiagsAt(props[..n], i);
      assert props[..n][..i] == props[..i];
    } else {
      assert props[..i] == props[..n];
    }
  }

  function PropValue(lp: LayoutProps, key: string): Option<nat> {
    if key == "size" then lp.size else lp.align
  }

  /** `props[i]` is the last property with this key. */
  predicate LastOccurrence(props: seq<LayoutProperty>, key: string, i: int) {
    0 <= i < |props| && props[i].key.inner == key && forall j :: i < j < |props| ==> props[j].key.inner != key
  }

  predicate Absent(props: seq<LayoutProperty>, key: string) {
    forall i :: 0 <= i < |props| ==> props[i].key.inner != key
  }

  /** For `size` and for `align`: the value read is that of the last
      occurrence of the key, and there is none exactly when the key is absent. */
  lemma {:induction false} LayoutPropsLastWins(props: seq<LayoutProperty>, key: string)
    requires key == "size" || key == "align"
    ensures PropValue(ReadLayoutProps(props), key).None? <==> Absent(props, key)
    ensures PropValue(ReadLayoutProps(props), key).Some? ==>
              exists i :: LastOccurrence(props, key, i) && props[i].value == PropValue(ReadLayoutProps(props), key).value
    decreases |props|
  {
    if |props| > 0 {
      var n := |props| - 1;
      var prefix := props[..n];
      LayoutPropsLastWins(prefix, key);
      var v := PropValue(ReadLayoutProps(props), key);
      if props[n].key.inner == key {
        assert v == Some(props[n].value);
        assert LastOccurrence(props, key, n);
      } else {
        assert v == PropValue(ReadLayoutProps(prefix), key);
        assert Absent(props, key) <==> Absent(prefix, key) by {
          assert forall i :: 0 <= i < n ==> prefix[i] == props[i];
        }
        if v.Some? {
          var i :| LastOccurrence(prefix, key, i) && prefix[i].value == v.value;
          assert prefix[i] == props[i];
          assert forall j :: i < j < n ==> prefix[j] == props[j];
          assert LastOccurrence(props, key, i);
        }
      }
    }
  }

  // ---- the state built while walking the items ----

  datatype TypeBuild = TypeBuild(
    methods: seq<ZngurMethodDetails>,
    constructors: seq<ZngurConstructor>,
    fields: seq<ZngurField>,
    traits: seq<Spanned<ZngurWellknownTrait>>,
    layout: Option<LayoutPolicy>,
    layoutSpan: Option<Span>,
    cppValue: Option<CppValue>,
    cppRef: Option<CppRef>,
    diags: seq<Diagnostic>)

  const EMPTY_BUILD: TypeBuild := TypeBuild([], [], [], [], None, None, None, None, [])

  /** A layout is present exactly when the span of the policy that set it is recorded. */
  predicate LayoutTracked(b: TypeBuild) {
    b.layout.Some? <==> b.layoutSpan.Some?
  }

  /** What a type body is processed against: the declared type's span, the
      scope and the cfg provider. */
  datatype TypeCtx = TypeCtx(tySpan: Span, scope: Scope, p: CfgProvider)

  function TupleInputs(tys: seq<ParsedRustType>, scope: Scope, from: nat): (r: seq<Named>)
    ensures |r| == |tys|
    ensures forall i :: 0 <= i < |tys| ==> r[i] == Named(NatToString(from + i), TypeToZngur(tys[i], scope))
    decreases |tys|
  {
    if |tys| == 0 then [] else [Named(NatToString(from), TypeToZngur(tys[0], scope))] + TupleInputs(tys[1..], scope, from + 1)
  }

  /** Constructor inputs: none for a unit constructor, fields named
      `"0"`, `"1"`, ... for a tuple one, the written names otherwise. */
  function ConstructorInputs(args: ParsedConstructorArgs, scope: Scope): (r: seq<Named>)
    ensures args.UnitArgs? ==> r == []
    ensures args.TupleArgs? ==> |r| == |args.tys| && forall i :: 0 <= i < |args.tys| ==> r[i].name == NatToString(i)
    ensures args.NamedArgs? ==> |r| == |args.fields| && forall i :: 0 <= i < |args.fields| ==> r[i].name == args.fields[i].name
  {
    match args
    case UnitArgs => []
    case TupleArgs(tys) => TupleInputs(tys, scope, 0)
    case NamedArgs(fs) => NamedToZngur(fs, scope)
  }

  /** Records a layout policy, then reports it if one was already recorded. */
  function SetLayout(b: TypeBuild, policy: LayoutPolicy, span: Span): (r: TypeBuild)
    ensures r.layout == Some(policy)
    ensures b.layoutSpan.None? ==> r.layoutSpan == Some(span) && r.diags == b.diags
    ensures b.layoutSpan.Some? ==> r.layoutSpan == b.layoutSpan && r.diags == b.diags + [Diagnostic(DUPLICATE_LAYOUT, Some(span))]
    ensures r == b.(layout := r.layout, layoutSpan := r.layoutSpan, diags := r.diags)
  {
    var b1 := b.(layout := Some(policy));
    if b.layoutSpan.Some? then b1.(diags := b.diags + [Diagnostic(DUPLICATE_LAYOUT, Some(span))])
    else b1.(layoutSpan := Some(span))
  }

  /** One item of the body other than a conditional block. */
  function StepItem(b: TypeBuild, item: Spanned<ParsedTypeItem>, ctx: TypeCtx): (r: TypeBuild)
    requires !item.inner.MatchOnCfgItem?
    ensures b.diags <= r.diags
    ensures LayoutTracked(b) ==> LayoutTracked(r)
    ensures b.methods <= r.methods && b.constructors <= r.constructors && b.fields <= r.fields && b.traits <= r.traits
    ensures b.layoutSpan.Some? ==> r.layoutSpan == b.layoutSpan
    ensures !item.inner.LayoutItem? && !item.inner.CppRefItem? ==> r.layout == b.layout && r.layoutSpan == b.layoutSpan
    ensures item.inner.CppRefItem? && b.layoutSpan.Some? ==>
              r == b.(diags := b.diags + [Diagnostic(DUPLICATE_LAYOUT, b.layoutSpan)])
    ensures item.inner.CppRefItem? && b.layoutSpan.None? ==>
              r.layout == Some(ZERO_SIZED_TYPE) && r.cppRef == Some(CppRef(item.inner.cppType)) && r.diags == b.diags
  {
    match item.inner
    case LayoutItem(span, policy) =>
      (match policy
       case PStackAllocated(props) =>
         var lp := ReadLayoutProps(props);
         var b1 := b.(diags := b.diags + lp.diags);
         if lp.size.None? then b1.(diags := b1.diags + [Diagnostic(NO_SIZE, Some(ctx.tySpan))])
         else if lp.align.None? then b1.(diags := b1.diags + [Diagnostic(NO_ALIGN, Some(ctx.tySpan))])
         else SetLayout(b1, StackAllocated(lp.size.value, lp.align.value), span)
       case PHeapAllocated => SetLayout(b, HeapAllocated, span)
       case POnlyByRef => SetLayout(b, OnlyByRef, span))
    case TraitsItem(tr) => b.(traits := b.traits + tr)
    case ConstructorItem(name, args) =>
      b.(constructors := b.constructors + [ZngurConstructor(name, ConstructorInputs(args, ctx.scope))])
    case FieldItem(name, ty, offset) =>
      b.(fields := b.fields + [ZngurField(name, TypeToZngur(ty, ctx.scope), Some(offset))])
    case MethodItem(data, usePath, deref) =>
      var (d, diags) :=
        match deref
        case None => (None, b.diags)
        case Some(x) =>
          if data.receiver.ByRef? then (Some(Deref(TypeToZngur(x, ctx.scope), data.receiver.m)), b.diags)
          else (None, b.diags + [Diagnostic(DEREF_NEEDS_REF, Some(item.span))]);
      var up := if usePath.Some? then Some(ResolvePath(ctx.scope, usePath.value)) else None;
      b.(methods := b.methods + [ZngurMethodDetails(MethodToZngur(data, ctx.scope), up, d)], diags := diags)
    case CppValueItem(field, cppType) => b.(cppValue := Some(CppValue(field, cppType)))
    case CppRefItem(cppType) =>
      if b.layoutSpan.Some? then b.(diags := b.diags + [Diagnostic(DUPLICATE_LAYOUT, b.layoutSpan)])
      else b.(layout := Some(ZERO_SIZED_TYPE), layoutSpan := Some(item.span), cppRef := Some(CppRef(cppType)))
  }

  /** A conditional block: its guards' errors and, when an arm passes, that arm's items. */
  function CfgBlockOf(b: TypeBuild, cond: Condition<ParsedTypeItem>, ctx: TypeCtx): (r: (TypeBuild, Option<nat>))
    ensures r.1.Some? ==> r.1.value < |cond.arms|
    ensures r.0 == b.(diags := b.diags + CfgDiagnostics(SelectArm(cond.arms, ctx.p).errors))
    ensures r.1 == SelectArm(cond.arms, ctx.p).arm
  {
    var s := SelectArm(cond.arms, ctx.p);
    (b.(diags := b.diags + CfgDiagnostics(s.errors)), s.arm)
  }

  // ---- the item walk, in document order ----

  /** The items in document order, a passing conditional block's items
      taking the place of the block. */
  function InOrder(b: TypeBuild, items: seq<Spanned<ParsedTypeItem>>, ctx: TypeCtx): TypeBuild
    decreases items, 1
  {
    if |items| == 0 then b else InOrder(InOrderOne(b, items[0], ctx), items[1..], ctx)
  }

  function InOrderOne(b: TypeBuild, item: Spanned<ParsedTypeItem>, ctx: TypeCtx): TypeBuild
    decreases item, 0
  {
    match item.inner
    case MatchOnCfgItem(cond) =>
      var (b1, arm) := CfgBlockOf(b, cond, ctx);
      if arm.None? then b1 else InOrder(b1, cond.arms[arm.value].block, ctx)
    case _ => StepItem(b, item, ctx)
  }

  lemma {:induction false} InOrderAppend(b: TypeBuild, x: seq<Spanned<ParsedTypeItem>>, y: seq<Spanned<ParsedTypeItem>>, ctx: TypeCtx)
    ensures InOrder(b, x + y, ctx) == InOrder(InOrder(b, x, ctx), y, ctx)
    decreases |x|
  {
    if |x| == 0 {
      assert x + y == y;
    } else {
      assert (x + y)[0] == x[0] && (x + y)[1..] == x[1..] + y;
      InOrderAppend(InOrderOne(b, x[0], ctx), x[1..], y, ctx);
    }
  }

  /** Walking the items only adds diagnostics, members and traits, and keeps
      the layout and its span in step. */
  lemma {:induction false} InOrderGrows(b: TypeBuild, items: seq<Spanned<ParsedTypeItem>>, ctx: TypeCtx)
    ensures var r := InOrder(b, items, ctx);
            b.diags <= r.diags && b.methods <= r.methods && b.constructors <= r.constructors &&
            b.fields <= r.fields && b.traits <= r.traits && (LayoutTracked(b) ==> LayoutTracked(r)) &&
            (b.layoutSpan.Some? ==> r.layoutSpan == b.layoutSpan)
    decreases items, 1
  {
    if |items| > 0 {
      InOrderOneGrows(b, items[0], ctx);
      InOrderGrows(InOrderOne(b, items[0], ctx), items[1..], ctx);
    }
  }

  lemma {:induction false} InOrderOneGrows(b: TypeBuild, item: Spanned<ParsedTypeItem>, ctx: TypeCtx)
    ensures var r := InOrderOne(b, item, ctx);
            b.diags <= r.diags && b.methods <= r.methods && b.constructors <= r.constructors &&
            b.fields <= r.fields && b.traits <= r.traits && (LayoutTracked(b) ==> LayoutTracked(r)) &&
            (b.layoutSpan.Some? ==> r.layoutSpan == b.layoutSpan)
    decreases item, 0
  {
    match item.inner
    case MatchOnCfgItem(cond) =>
      var (b1, arm) := CfgBlockOf(b, cond, ctx);
      if arm.Some? {
        InOrderGrows(b1, cond.arms[arm.value].block, ctx);
      }
    case _ =>
  }

  lemma InOrderSingle(b: TypeBuild, x: Spanned<ParsedTypeItem>, ctx: TypeCtx)
    ensures InOrder(b, [x], ctx) == InOrderOne(b, x, ctx)
  {
    assert [x][1..] == [];
  }

  lemma InOrderPair(b: TypeBuild, x: Spanned<ParsedTypeItem>, y: Spanned<ParsedTypeItem>, ctx: TypeCtx)
    ensures InOrder(b, [x, y], ctx) == InOrderOne(InOrderOne(b, x, ctx), y, ctx)
  {
    assert [x, y][1..] == [y];
    InOrderSingle(InOrderOne(b, x, ctx), y, ctx);
  }

  // ---- the item walk as written: a stack that a passing block is pushed onto ----

  /** The walk as written: the items form a stack (the body reversed), and a
      passing conditional block is pushed onto it in its written order, so
      its items are popped, and processed, last first. */
  function StackWalk(b: TypeBuild, stack: seq<Spanned<ParsedTypeItem>>, ctx: TypeCtx): TypeBuild
    decreases stack, 1
  {
    if |stack| == 0 then b
    else StackWalk(StackPop(b, stack[|stack| - 1], ctx), stack[..|stack| - 1], ctx)
  }

  function StackPop(b: TypeBuild, item: Spanned<ParsedTypeItem>, ctx: TypeCtx): TypeBuild
    decreases item, 0
  {
    match item.inner
    case MatchOnCfgItem(cond) =>
      var (b1, arm) := CfgBlockOf(b, cond, ctx);
      if arm.None? then b1 else StackWalk(b1, cond.arms[arm.value].block, ctx)
    case _ => StepItem(b, item, ctx)
  }

  /** Outside conditional blocks the stack walk is the document-order walk. */
  lemma {:induction false} StackWalkPlain(b: TypeBuild, items: seq<Spanned<ParsedTypeItem>>, ctx: TypeCtx)
    requires forall i :: 0 <= i < |items| ==> !items[i].inner.MatchOnCfgItem?
    ensures StackWalk(b, Reverse(items), ctx) == InOrder(b, items, ctx)
    decreases |items|
  {
    if |items| > 0 {
      var rev := Reverse(items);
      var tail := items[1..];
      assert rev[|rev| - 1] == items[0];
      assert rev[..|rev| - 1] == Reverse(tail);
      assert StackPop(b, items[0], ctx) == InOrderOne(b, items[0], ctx);
      assert forall i :: 0 <= i < |tail| ==> tail[i] == items[i + 1];
      StackWalkPlain(StackPop(b, items[0], ctx), tail, ctx);
    }
  }

  /** Two methods inside one always-passing `#if` block. */
  function TwoMethodsInBlock(m1: ParsedMethod, m2: ParsedMethod, sp: Span): seq<Spanned<ParsedTypeItem>> {
    var arm := Arm(CondSingle(Key("unix")), Spanned(PatSingle(AnyItem), sp),
                   [Spanned(MethodItem(m1, None, None), sp), Spanned(MethodItem(m2, None, None), sp)]);
    [Spanned(MatchOnCfgItem(Condition([arm])), sp)]
  }

  /** As written, the methods of a conditional block come out in reverse
      order: `fn a` then `fn b` inside a passing `#if` yield `[b, a]`, where
      the document order, and the order outside blocks, gives `[a, b]`. */
  lemma StackWalkReversesBlocks(m1: ParsedMethod, m2: ParsedMethod, sp: Span, ctx: TypeCtx)
    ensures var items := TwoMethodsInBlock(m1, m2, sp);
            var asWritten := StackWalk(EMPTY_BUILD, Reverse(items), ctx);
            var inOrder := InOrder(EMPTY_BUILD, items, ctx);
            |asWritten.methods| == 2 && asWritten.methods[0].data == MethodToZngur(m2, ctx.scope) &&
            |inOrder.methods| == 2 && inOrder.methods[0].data == MethodToZngur(m1, ctx.scope)
  {
    var items := TwoMethodsInBlock(m1, m2, sp);
    var block := items[0].inner.cond.arms[0].block;
    var x, y := block[0], block[1];
    assert block == [x, y];
    assert SelectArm(items[0].inner.cond.arms, ctx.p).arm == Some(0);
    var b1 := CfgBlockOf(EMPTY_BUILD, items[0].inner.cond, ctx).0;
    assert b1.methods == [];
    // as written
    assert Reverse(items) == items;
    assert items[..0] == [];
    assert StackWalk(EMPTY_BUILD, Reverse(items), ctx) == StackWalk(b1, block, ctx);
    assert block[..1] == [x] && [x][..0] == [];
    var w1 := StackPop(b1, y, ctx);
    assert w1.methods == [ZngurMethodDetails(MethodToZngur(m2, ctx.scope), None, None)];
    assert StackWalk(b1, block, ctx) == StackWalk(w1, [x], ctx) == StackPop(w1, x, ctx);
    // in order
    InOrderSingle(EMPTY_BUILD, items[0], ctx);
    InOrderPair(b1, x, y, ctx);
    var o1 := InOrderOne(b1, x, ctx);
    assert o1.methods == [ZngurMethodDetails(MethodToZngur(m1, ctx.scope), None, None)];
  }

  // ---- the corrected walk, with the block reversed before it is pushed ----

  /** Size of the items, counting a conditional block by all of its arms. */
  ghost function ItemSize(item: Spanned<ParsedTypeItem>): nat
    decreases item, 2
  {
    1 + match item.inner
        case MatchOnCfgItem(cond) => ArmsSize(cond.arms)
        case _ => 0
  }

  ghost function ArmsSize(arms: seq<Arm<ParsedTypeItem>>): nat
    decreases arms, 1
  {
    if |arms| == 0 then 0 else BlockSize(arms[0].block) + ArmsSize(arms[1..])
  }

  ghost function BlockSize(block: seq<Spanned<ParsedTypeItem>>): nat
    decreases block, 0
  {
    if |block| == 0 then 0 else ItemSize(block[0]) + BlockSize(block[1..])
  }

  lemma {:induction false} BlockSizeAppend(x: seq<Spanned<ParsedTypeItem>>, y: seq<Spanned<ParsedTypeItem>>)
    ensures BlockSize(x + y) == BlockSize(x) + BlockSize(y)
    decreases |x|
  {
    if |x| == 0 {
      assert x + y == y;
    } else {
      assert (x + y)[1..] == x[1..] + y;
      BlockSizeAppend(x[1..], y);
    }
  }

  lemma {:induction false} BlockSizeReverse(x: seq<Spanned<ParsedTypeItem>>)
    ensures BlockSize(Reverse(x)) == BlockSize(x)
    decreases |x|
  {
    if |x| > 0 {
      ReverseAppend([x[0]], x[1..]);
      assert x == [x[0]] + x[1..];
      BlockSizeAppend(Reverse(x[1..]), Reverse([x[0]]));
      BlockSizeReverse(x[1..]);
      assert Reverse([x[0]]) == [x[0]];
      assert BlockSize([x[0]]) == ItemSize(x[0]);
    }
  }

  lemma {:induction false} ArmBlockSize(arms: seq<Arm<ParsedTypeItem>>, k: nat)
    requires k < |arms|
    ensures BlockSize(arms[k].block) <= ArmsSize(arms)
    decreases k
  {
    if k > 0 {
      ArmBlockSize(arms[1..], k - 1);
    }
  }

  /** Popping a plain item off the stack and processing it keeps the walk. */
  lemma PopPlain(b: TypeBuild, rest: seq<Spanned<ParsedTypeItem>>, top: Spanned<ParsedTypeItem>, ctx: TypeCtx)
    requires !top.inner.MatchOnCfgItem?
    ensures InOrder(StepItem(b, top, ctx), Reverse(rest), ctx) == InOrder(b, Reverse(rest + [top]), ctx)
    ensures BlockSize(rest) < BlockSize(rest + [top])
  {
    ReverseAppend(rest, [top]);
    assert Reverse([top]) == [top];
    assert Reverse(rest + [top])[1..] == Reverse(rest);
    BlockSizeAppend(rest, [top]);
    assert BlockSize([top]) == ItemSize(top);
  }

  /** Popping a conditional block and pushing the passing arm's items reversed keeps the walk. */
  lemma PopBlock(b: TypeBuild, rest: seq<Spanned<ParsedTypeItem>>, top: Spanned<ParsedTypeItem>, ctx: TypeCtx)
    requires top.inner.MatchOnCfgItem?
    ensures var (b1, arm) := CfgBlockOf(b, top.inner.cond, ctx);
            (arm.None? ==> InOrder(b1, Reverse(rest), ctx) == InOrder(b, Reverse(rest + [top]), ctx)) &&
            (arm.Some? ==>
               var block := top.inner.cond.arms[arm.value].block;
               InOrder(b1, Reverse(rest + Reverse(block)), ctx) == InOrder(b, Reverse(rest + [top]), ctx) &&
               BlockSize(rest + Reverse(block)) < BlockSize(rest + [top]))
    ensures BlockSize(rest) < BlockSize(rest + [top])
  {
    ReverseAppend(rest, [top]);
    assert Reverse([top]) == [top];
    assert Reverse(rest + [top])[1..] == Reverse(rest);
    BlockSizeAppend(rest, [top]);
    assert BlockSize([top]) == ItemSize(top);
    var (b1, arm) := CfgBlockOf(b, top.inner.cond, ctx);
    if arm.Some? {
      var block := top.inner.cond.arms[arm.value].block;
      ArmBlockSize(top.inner.cond.arms, arm.value);
      BlockSizeReverse(block);
      BlockSizeAppend(rest, Reverse(block));
      ReverseAppend(rest, Reverse(block));
      ReverseReverse(block);
      InOrderAppend(b1, block, Reverse(rest), ctx);
    }
  }

  /** The body walk of a `type` declaration: the items go on a stack, and
      a passing conditional block is pushed reversed, so that every item is
      processed in document order. */
  method WalkTypeItems(items: seq<Spanned<ParsedTypeItem>>, ctx: TypeCtx) returns (b: TypeBuild)
    ensures b == InOrder(EMPTY_BUILD, items, ctx)
  {
    var stack := Reverse(items);
    ReverseReverse(items);
    b := EMPTY_BUILD;
    while |stack| > 0
      invariant InOrder(b, Reverse(stack), ctx) == InOrder(EMPTY_BUILD, items, ctx)
      decreases BlockSize(stack)
    {
      b, stack := PopItem(b, stack, ctx);
    }
  }

  /** One turn of the walk: the top of the stack is popped and processed,
      or, for a conditional block, replaced by its passing arm's items. */
  method PopItem(b: TypeBuild, stack: seq<Spanned<ParsedTypeItem>>, ctx: TypeCtx)
    returns (b': TypeBuild, stack': seq<Spanned<ParsedTypeItem>>)
    requires |stack| > 0
    ensures InOrder(b', Reverse(stack'), ctx) == InOrder(b, Reverse(stack), ctx)
    ensures BlockSize(stack') < BlockSize(stack)
  {
    var n := |stack| - 1;
    var top, rest := stack[n], stack[..n];
    SeqUtil.LastSplit(stack);
    if top.inner.MatchOnCfgItem? {
      PopBlock(b, rest, top, ctx);
      var next, arm := CfgBlockOf(b, top.inner.cond, ctx).0, CfgBlockOf(b, top.inner.cond, ctx).1;
      b' := next;
      stack' := rest;
      if arm.Some? {
        stack' := rest + Reverse(top.inner.cond.arms[arm.value].block);
      }
    } else {
      PopPlain(b, rest, top, ctx);
      b' := StepItem(b, top, ctx);
      stack' := rest;
    }
  }

  // ---- finishing the type ----

  function TraitKinds(ts: seq<Spanned<ZngurWellknownTrait>>): (r: seq<ZngurWellknownTrait>)
    ensures |r| == |ts| && forall i :: 0 <= i < |ts| ==> r[i] == ts[i].inner
  {
    seq(|ts|, i requires 0 <= i < |ts| => ts[i].inner)
  }

  /** After the walk: an `Unsized` type gets the `OnlyByRef` layout, and any
      explicit policy is then reported; the pieces become the `ZngurType`. */
  function FinishType(b: TypeBuild, ty: RustType): (r: (ZngurType, seq<Diagnostic>))
    ensures Unsized in TraitKinds(b.traits) ==> r.0.layout == Some(OnlyByRef)
    ensures Unsized !in TraitKinds(b.traits) ==> r.0.layout == b.layout && r.1 == b.diags
    ensures Unsized in TraitKinds(b.traits) && b.layoutSpan.Some? ==>
              r.1 == b.diags + [Diagnostic(UNSIZED_LAYOUT, b.layoutSpan)]
    ensures r.0.ty == ty && r.0.wellknownTraits == TraitKinds(b.traits)
    ensures r.0.methods == b.methods && r.0.constructors == b.constructors && r.0.fields == b.fields
    ensures r.0.cppValue == b.cppValue && r.0.cppRef == b.cppRef
  {
    var wt := TraitKinds(b.traits);
    var (layout, diags) :=
      if Unsized in wt then
        (Some(OnlyByRef), if b.layoutSpan.Some? then b.diags + [Diagnostic(UNSIZED_LAYOUT, b.layoutSpan)] else b.diags)
      else (b.layout, b.diags);
    (ZngurType(ty, layout, wt, b.methods, b.constructors, b.fields, b.cppValue, b.cppRef), diags)
  }

  // ---- layout validation, item by item ----

  /** A second layout policy is reported at its own span, and, being
      recorded before the check, it is the one that stays. */
  lemma SecondLayoutReported(sp1: Span, sp2: Span, p1: ParsedLayoutPolicy, p2: ParsedLayoutPolicy, ctx: TypeCtx)
    requires !p1.PStackAllocated? && !p2.PStackAllocated?
    ensures var r := InOrder(EMPTY_BUILD, [Spanned(LayoutItem(sp1, p1), sp1), Spanned(LayoutItem(sp2, p2), sp2)], ctx);
            r.diags == [Diagnostic(DUPLICATE_LAYOUT, Some(sp2))] && r.layoutSpan == Some(sp1) &&
            r.layout == Some(if p2.PHeapAllocated? then HeapAllocated else OnlyByRef)
  {
    var x, y := Spanned(LayoutItem(sp1, p1), sp1), Spanned(LayoutItem(sp2, p2), sp2);
    InOrderPair(EMPTY_BUILD, x, y, ctx);
    var b1 := InOrderOne(EMPTY_BUILD, x, ctx);
    assert b1.layoutSpan == Some(sp1) && b1.diags == [];
  }

  /** `#layout` without `size` (or, with it, without `align`) is reported at
      the type and records no layout. */
  lemma LayoutNeedsSizeAndAlign(b: TypeBuild, sp: Span, props: seq<LayoutProperty>, ctx: TypeCtx)
    ensures var lp := ReadLayoutProps(props);
            var r := StepItem(b, Spanned(LayoutItem(sp, PStackAllocated(props)), sp), ctx);
            (lp.size.None? ==>
               r.layout == b.layout && r.layoutSpan == b.layoutSpan && r.diags == b.diags + lp.diags + [Diagnostic(NO_SIZE, Some(ctx.tySpan))]) &&
            (lp.size.Some? && lp.align.None? ==>
               r.layout == b.layout && r.diags == b.diags + lp.diags + [Diagnostic(NO_ALIGN, Some(ctx.tySpan))])
  {
  }

  /** `#cpp_ref` after a layout policy is reported at that policy and is
      dropped; on its own it makes the type zero-sized. */
  lemma CppRefAfterLayout(spL: Span, spR: Span, policy: ParsedLayoutPolicy, cppType: string, ctx: TypeCtx)
    requires !policy.PStackAllocated?
    ensures var r := InOrder(EMPTY_BUILD, [Spanned(LayoutItem(spL, policy), spL), Spanned(CppRefItem(cppType), spR)], ctx);
            r.diags == [Diagnostic(DUPLICATE_LAYOUT, Some(spL))] && r.cppRef.None?
    ensures var r := InOrder(EMPTY_BUILD, [Spanned(CppRefItem(cppType), spR)], ctx);
            r.diags == [] && r.layout == Some(ZERO_SIZED_TYPE) && r.cppRef == Some(CppRef(cppType))
  {
    var x, y := Spanned(LayoutItem(spL, policy), spL), Spanned(CppRefItem(cppType), spR);
    InOrderPair(EMPTY_BUILD, x, y, ctx);
    var b1 := InOrderOne(EMPTY_BUILD, x, ctx);
    assert b1.layoutSpan == Some(spL) && b1.diags == [] && b1.cppRef.None?;
    InOrderSingle(EMPTY_BUILD, y, ctx);
  }
}
