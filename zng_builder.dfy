/**
 * The `.zng` front end, part four (zngur-parser/src/lib.rs): processed
 * items added to the specification being built (`add_to_zngur_spec`),
 * imported files parsed into the same builder (`parse_into`), and the
 * finishing pass that applies templates and adds `Drop` (`to_zngur`).
 */
module ZngBuilder {
  import opened Wrappers
  import opened ZngurDef
  import opened ZngurMerge
  import opened Cfg
  import opened Conditional
  import opened TemplateTypes
  import opened ZngPaths
  import opened ZngTypeItems
  import opened ZngItems
  import SeqUtil

  /** A generic type declaration kept aside until the whole specification is known. */
  datatype TemplateDef = TemplateDef(ty: ZngurType, span: Span)

  /** `ZngurSpecBuilder`. */
  datatype Builder = Builder(spec: ZngurSpec, templates: seq<TemplateDef>, imports: seq<string>)

  /** The builder with the errors reported so far. */
  datatype AddState = AddState(b: Builder, diags: seq<Diagnostic>)

  const ABSOLUTE_IMPORT := "Absolute paths imports are not supported."
  const MODULE_IMPORT := "Module import is not supported. Use a relative path instead."
  const NESTED_CONVERT_PANIC := "Using `#convert_panic_to_exception` in imported zngur files is not supported. This directive can only be used in the main zngur file."
  const UNIT_TYPE := "Unit type is declared implicitly. Remove this entirely."
  const IMPORT_NOT_FOUND := "Import path not found: "

  function Report(st: AddState, message: string, span: Option<Span>): AddState {
    st.(diags := st.diags + [Diagnostic(message, span)])
  }

  /** `checked_merge`: the merged specification is kept, and a conflict is reported at the item. */
  function CheckedMerge(st: AddState, merged: (ZngurSpec, MergeResult), span: Span): AddState {
    var st1 := st.(b := st.b.(spec := merged.0));
    if merged.1.Err? then Report(st1, merged.1.error.message, Some(span)) else st1
  }

  // ---- import paths ----

  /** The text before the first `/`. */
  function FirstComponent(path: string): (r: string)
    ensures |r| <= |path| && r == path[..|r|] && '/' !in r
    ensures |r| < |path| ==> path[|r|] == '/'
  {
    if |path| == 0 || path[0] == '/' then "" else [path[0]] + FirstComponent(path[1..])
  }

  predicate IsAbsolute(path: string) {
    |path| > 0 && path[0] == '/'
  }

  /** A path whose first component is `.` or `..`. */
  predicate IsRelativeImport(path: string) {
    !IsAbsolute(path) && (FirstComponent(path) == "." || FirstComponent(path) == "..")
  }

  function AddImport(st: AddState, path: Spanned<string>): AddState {
    var st1 := if IsAbsolute(path.inner) then Report(st, ABSOLUTE_IMPORT, Some(path.span)) else st;
    if IsRelativeImport(path.inner) then st1.(b := st1.b.(imports := st1.b.imports + [path.inner]))
    else Report(st1, MODULE_IMPORT, Some(path.span))
  }

  /** An import is recorded exactly when its path starts with `./` or `../`
      (or is `.` or `..`); an absolute path is reported twice, a module
      name once. */
  lemma ImportOutcome(st: AddState, path: Spanned<string>)
    ensures var r := AddImport(st, path);
            (IsRelativeImport(path.inner) <==> r.b.imports == st.b.imports + [path.inner]) &&
            (IsRelativeImport(path.inner) ==> r.diags == st.diags) &&
            (IsAbsolute(path.inner) ==>
               r.b.imports == st.b.imports &&
               r.diags == st.diags + [Diagnostic(ABSOLUTE_IMPORT, Some(path.span)), Diagnostic(MODULE_IMPORT, Some(path.span))]) &&
            (!IsAbsolute(path.inner) && !IsRelativeImport(path.inner) ==>
               r.b.imports == st.b.imports && r.diags == st.diags + [Diagnostic(MODULE_IMPORT, Some(path.span))])
    ensures IsRelativeImport(path.inner) <==>
              !IsAbsolute(path.inner) && (path.inner == "." || path.inner == ".." ||
                                          StartsWithSlash(path.inner, ".") || StartsWithSlash(path.inner, ".."))
  {
    var s := path.inner;
    var f := FirstComponent(s);
    if !IsAbsolute(s) && (StartsWithSlash(s, ".") || StartsWithSlash(s, "..")) {
      var pre := if StartsWithSlash(s, ".") then "." else "..";
      FirstComponentOfPrefix(s, pre);
    }
    if !IsAbsolute(s) && |f| < |s| && (f == "." || f == "..") {
      assert s[..|f| + 1] == f + "/";
    }
    if |f| == |s| {
      assert f == s;
    }
  }

  predicate StartsWithSlash(s: string, pre: string) {
    |pre| + 1 <= |s| && s[..|pre| + 1] == pre + "/"
  }

  lemma {:induction false} FirstComponentOfPrefix(s: string, pre: string)
    requires StartsWithSlash(s, pre) && '/' !in pre
    ensures FirstComponent(s) == pre
    decreases |pre|
  {
    if |pre| > 0 {
      assert s[0] == pre[0];
      assert s[1..][..|pre[1..]| + 1] == pre[1..] + "/";
      assert forall c :: c in pre[1..] ==> c in pre;
      FirstComponentOfPrefix(s[1..], pre[1..]);
    } else {
      assert s[0] == '/';
    }
  }

  // ---- adding processed items ----

  function MethodsToZngur(ms: seq<ParsedMethod>, scope: Scope): (r: seq<ZngurMethod>)
    ensures |r| == |ms| && forall i :: 0 <= i < |ms| ==> r[i] == MethodToZngur(ms[i], scope)
  {
    seq(|ms|, i requires 0 <= i < |ms| => MethodToZngur(ms[i], scope))
  }

  /** A free function lands at the current module's path followed by its name. */
  function FnOf(f: ParsedMethod, scope: Scope): (r: ZngurFn)
    ensures r.path.path == scope.base + [f.name] && r.path.namedGenerics == []
    ensures var m := MethodToZngur(f, scope); r.path.generics == m.generics && r.inputs == m.inputs && r.output == m.output
  {
    var m := MethodToZngur(f, scope);
    ZngurFn(RustPathAndGenerics(SimpleRelativePath(scope, m.name), m.generics, []), m.inputs, m.output)
  }

  function AddExtern(st: AddState, e: ParsedExternCppItem, scope: Scope): AddState {
    match e
    case ExternFn(f) =>
      var m := MethodToZngur(f.inner, scope);
      CheckedMerge(st, MergeExternCppFnIntoSpec(ZngurExternCppFn(m.name, m.inputs, m.output), st.b.spec), f.span)
    case ExternImpl(tr, ty, methods) =>
      var imp := ZngurExternCppImpl(if tr.Some? then Some(TraitToZngur(tr.value, scope)) else None,
                                    TypeToZngur(ty.inner, scope), MethodsToZngur(methods, scope));
      CheckedMerge(st, MergeExternCppImplIntoSpec(imp, st.b.spec), ty.span)
  }

  function AddExterns(st: AddState, es: seq<ParsedExternCppItem>, scope: Scope): AddState
    decreases |es|
  {
    if |es| == 0 then st else AddExterns(AddExtern(st, es[0], scope), es[1..], scope)
  }

  /** The `type` branch: a unit type is reported (and still declared); the
      body is walked; a generic declaration becomes a template, any other
      is merged into the specification. */
  function AddType(st: AddState, ty: Spanned<ParsedRustType>, items: seq<Spanned<ParsedTypeItem>>,
                   typeVars: Option<set<string>>, scope: Scope, p: CfgProvider): (r: AddState)
    ensures st.diags <= r.diags && r.b.imports == st.b.imports
    ensures ty.inner == ZngPaths.PTuple([]) ==> |r.diags| > |st.diags| && r.diags[|st.diags|] == Diagnostic(UNIT_TYPE, Some(ty.span))
    ensures typeVars.None? ==> r.b.templates == st.b.templates
    ensures typeVars.Some? ==> r.b.spec == st.b.spec && st.b.templates < r.b.templates
  {
    var st0 := if ty.inner == ZngPaths.PTuple([]) then Report(st, UNIT_TYPE, Some(ty.span)) else st;
    var sc := if typeVars.Some? then WithTypeVars(scope, typeVars.value) else scope;
    var built := InOrder(EMPTY_BUILD, items, TypeCtx(ty.span, sc, p));
    var (zt, diags) := FinishType(built, TypeToZngur(ty.inner, sc));
    var st1 := st0.(diags := st0.diags + diags);
    if typeVars.Some? then st1.(b := st1.b.(templates := st1.b.templates + [TemplateDef(zt, ty.span)]))
    else CheckedMerge(st1, MergeTypeIntoSpec(zt, st1.b.spec), ty.span)
  }

  /** `ProcessedItem::add_to_zngur_spec`; `depth` is the import depth of the
      file the item comes from (0 for the main file). */
  function AddItem(st: AddState, item: ProcessedItem, scope: Scope, depth: nat, p: CfgProvider): AddState
    decreases item, 0
  {
    match item
    case PMod(path, items, aliases) => AddItems(st, items, SubScope(scope, aliases, path), depth, p)
    case PImport(path) => AddImport(st, path)
    case PType(ty, items, typeVars) => AddType(st, ty, items, typeVars, scope, p)
    case PTrait(tr, methods) =>
      CheckedMerge(st, MergeTraitIntoSpec(ZngurTrait(TraitToZngur(tr.inner, scope), MethodsToZngur(methods, scope)), st.b.spec), tr.span)
    case PFn(f) => CheckedMerge(st, MergeFnIntoSpec(FnOf(f.inner, scope), st.b.spec), f.span)
    case PExternCpp(es) => AddExterns(st, es, scope)
    case PInclude(text) => st.(b := st.b.(spec := MergeAdditionalIncludes(text, st.b.spec).0))
    case PConvertPanic(span) =>
      if depth > 0 then Report(st, NESTED_CONVERT_PANIC, Some(span))
      else st.(b := st.b.(spec := MergeConvertPanicToException(true, st.b.spec).0))
  }

  function AddItems(st: AddState, items: seq<ProcessedItem>, scope: Scope, depth: nat, p: CfgProvider): AddState
    decreases items, 1
  {
    if |items| == 0 then st else AddItems(AddItem(st, items[0], scope, depth, p), items[1..], scope, depth, p)
  }

  lemma {:induction false} AddItemsAppend(st: AddState, xs: seq<ProcessedItem>, ys: seq<ProcessedItem>, scope: Scope, depth: nat, p: CfgProvider)
    ensures AddItems(st, xs + ys, scope, depth, p) == AddItems(AddItems(st, xs, scope, depth, p), ys, scope, depth, p)
    decreases |xs|
  {
    if |xs| == 0 {
      SeqUtil.AppendEmpty(ys);
    } else {
      SeqUtil.ConsAppend(xs, ys);
      AddItemsAppend(AddItem(st, xs[0], scope, depth, p), xs[1..], ys, scope, depth, p);
    }
  }

  /** What adding items keeps: no error is withdrawn, no import or template
      is dropped, and the specification never lists one Rust type twice. */
  predicate Keeps(st: AddState, r: AddState) {
    st.diags <= r.diags && st.b.imports <= r.b.imports && st.b.templates <= r.b.templates &&
    |st.b.spec.types| <= |r.b.spec.types| &&
    (TysUnique(st.b.spec.types) ==> TysUnique(r.b.spec.types))
  }

  lemma KeepsTrans(a: AddState, b: AddState, c: AddState)
    requires Keeps(a, b) && Keeps(b, c)
    ensures Keeps(a, c)
  {
  }

  lemma CheckedMergeKeeps(st: AddState, merged: (ZngurSpec, MergeResult), span: Span)
    requires |st.b.spec.types| <= |merged.0.types|
    requires TysUnique(st.b.spec.types) ==> TysUnique(merged.0.types)
    ensures Keeps(st, CheckedMerge(st, merged, span))
  {
  }

  lemma {:induction false} AddExternsKeeps(st: AddState, es: seq<ParsedExternCppItem>, scope: Scope)
    ensures Keeps(st, AddExterns(st, es, scope))
    decreases |es|
  {
    if |es| > 0 {
      var st1 := AddExtern(st, es[0], scope);
      assert Keeps(st, st1);
      AddExternsKeeps(st1, es[1..], scope);
      KeepsTrans(st, st1, AddExterns(st1, es[1..], scope));
    }
  }

  lemma AddTypeKeeps(st: AddState, ty: Spanned<ParsedRustType>, items: seq<Spanned<ParsedTypeItem>>,
                     typeVars: Option<set<string>>, scope: Scope, p: CfgProvider)
    ensures Keeps(st, AddType(st, ty, items, typeVars, scope, p))
  {
    var st0 := if ty.inner == ZngPaths.PTuple([]) then Report(st, UNIT_TYPE, Some(ty.span)) else st;
    var sc := if typeVars.Some? then WithTypeVars(scope, typeVars.value) else scope;
    var built := InOrder(EMPTY_BUILD, items, TypeCtx(ty.span, sc, p));
    var (zt, diags) := FinishType(built, TypeToZngur(ty.inner, sc));
    var st1 := st0.(diags := st0.diags + diags);
    assert Keeps(st, st1);
    var r := AddType(st, ty, items, typeVars, scope, p);
    if typeVars.Some? {
      assert r == st1.(b := st1.b.(templates := st1.b.templates + [TemplateDef(zt, ty.span)]));
    } else {
      assert r == CheckedMerge(st1, MergeTypeIntoSpec(zt, st1.b.spec), ty.span);
      TypeMergeKeeps(st1, zt, ty.span);
    }
    KeepsTrans(st, st1, r);
  }

  lemma TypeMergeKeeps(st: AddState, t: ZngurType, span: Span)
    ensures Keeps(st, CheckedMerge(st, MergeTypeIntoSpec(t, st.b.spec), span))
  {
    if TysUnique(st.b.spec.types) {
      MergeTypeIntoSpecUnique(t, st.b.spec);
    }
    CheckedMergeKeeps(st, MergeTypeIntoSpec(t, st.b.spec), span);
  }

  lemma {:induction false} AddItemKeeps(st: AddState, item: ProcessedItem, scope: Scope, depth: nat, p: CfgProvider)
    ensures Keeps(st, AddItem(st, item, scope, depth, p))
    decreases item, 0
  {
    match item
    case PMod(path, items, aliases) => AddItemsKeeps(st, items, SubScope(scope, aliases, path), depth, p);
    case PType(ty, items, typeVars) => AddTypeKeeps(st, ty, items, typeVars, scope, p);
    case PExternCpp(es) => AddExternsKeeps(st, es, scope);
    case PImport(path) => ImportKeeps(st, path);
    case _ => SpecItemKeeps(st, item, scope, depth, p);
  }

  /** The items that only merge into the specification (or report) keep it. */
  lemma SpecItemKeeps(st: AddState, item: ProcessedItem, scope: Scope, depth: nat, p: CfgProvider)
    requires item.PTrait? || item.PFn? || item.PInclude? || item.PConvertPanic?
    ensures Keeps(st, AddItem(st, item, scope, depth, p))
  {
    match item
    case PTrait(tr, methods) =>
      CheckedMergeKeeps(st, MergeTraitIntoSpec(ZngurTrait(TraitToZngur(tr.inner, scope), MethodsToZngur(methods, scope)), st.b.spec), tr.span);
    case PFn(f) => CheckedMergeKeeps(st, MergeFnIntoSpec(FnOf(f.inner, scope), st.b.spec), f.span);
    case PInclude(text) => SpecOnlyKeeps(st, MergeAdditionalIncludes(text, st.b.spec).0);
    case PConvertPanic(span) =>
      if depth == 0 {
        SpecOnlyKeeps(st, MergeConvertPanicToException(true, st.b.spec).0);
      }
  }

  lemma ImportKeeps(st: AddState, path: Spanned<string>)
    ensures Keeps(st, AddImport(st, path))
  {
  }

  /** Replacing the specification by one with the same types keeps everything. */
  lemma SpecOnlyKeeps(st: AddState, spec: ZngurSpec)
    requires spec.types == st.b.spec.types
    ensures Keeps(st, st.(b := st.b.(spec := spec)))
  {
  }

  lemma {:induction false} AddItemsKeeps(st: AddState, items: seq<ProcessedItem>, scope: Scope, depth: nat, p: CfgProvider)
    ensures Keeps(st, AddItems(st, items, scope, depth, p))
    decreases items, 1
  {
    if |items| > 0 {
      var st1 := AddItem(st, items[0], scope, depth, p);
      AddItemKeeps(st, items[0], scope, depth, p);
      AddItemsKeeps(st1, items[1..], scope, depth, p);
      KeepsTrans(st, st1, AddItems(st1, items[1..], scope, depth, p));
    }
  }

  /** A generic declaration changes nothing in the specification: it is
      kept as a template, to be applied when the specification is finished. */
  lemma TemplateIsDeferred(st: AddState, ty: Spanned<ParsedRustType>, items: seq<Spanned<ParsedTypeItem>>,
                           vars: set<string>, scope: Scope, depth: nat, p: CfgProvider)
    ensures var r := AddItem(st, PType(ty, items, Some(vars)), scope, depth, p);
            r.b.spec == st.b.spec && |r.b.templates| == |st.b.templates| + 1 &&
            r.b.templates[|st.b.templates|].span == ty.span &&
            r.b.templates[|st.b.templates|].ty.ty == TypeToZngur(ty.inner, WithTypeVars(scope, vars))
  {
  }

  /** `#convert_panic_to_exception` sets the flag in the main file only; in
      an imported file it is reported and ignored. */
  lemma ConvertPanicMainOnly(st: AddState, span: Span, scope: Scope, depth: nat, p: CfgProvider)
    ensures var r := AddItem(st, PConvertPanic(span), scope, depth, p);
            (depth == 0 ==> r.b.spec.convertPanicToException && r.diags == st.diags) &&
            (depth > 0 ==> r.b == st.b && r.diags == st.diags + [Diagnostic(NESTED_CONVERT_PANIC, Some(span))])
  {
  }

  /** Nothing from an imported file changes the panic flag. */
  lemma {:induction false} ImportedKeepsPanicFlag(st: AddState, items: seq<ProcessedItem>, scope: Scope, depth: nat, p: CfgProvider)
    requires depth > 0
    ensures AddItems(st, items, scope, depth, p).b.spec.convertPanicToException == st.b.spec.convertPanicToException
    decreases items, 1
  {
    if |items| > 0 {
      ImportedItemKeepsPanicFlag(st, items[0], scope, depth, p);
      ImportedKeepsPanicFlag(AddItem(st, items[0], scope, depth, p), items[1..], scope, depth, p);
    }
  }

  lemma {:induction false} ImportedItemKeepsPanicFlag(st: AddState, item: ProcessedItem, scope: Scope, depth: nat, p: CfgProvider)
    requires depth > 0
    ensures AddItem(st, item, scope, depth, p).b.spec.convertPanicToException == st.b.spec.convertPanicToException
    decreases item, 0
  {
    match item
    case PMod(path, items, aliases) => ImportedKeepsPanicFlag(st, items, SubScope(scope, aliases, path), depth, p);
    case PExternCpp(es) => ExternsKeepPanicFlag(st, es, scope);
    case PType(ty, items, typeVars) => TypeKeepsPanicFlag(st, ty, items, typeVars, scope, p);
    case _ => SpecItemKeepsPanicFlag(st, item, scope, depth, p);
  }

  /** In an imported file, traits, functions, includes and the directive
      itself leave the flag alone. */
  lemma SpecItemKeepsPanicFlag(st: AddState, item: ProcessedItem, scope: Scope, depth: nat, p: CfgProvider)
    requires depth > 0
    requires item.PTrait? || item.PFn? || item.PInclude? || item.PConvertPanic? || item.PImport?
    ensures AddItem(st, item, scope, depth, p).b.spec.convertPanicToException == st.b.spec.convertPanicToException
  {
    match item
    case PTrait(tr, methods) =>
      TraitKeepsPanicFlag(st, ZngurTrait(TraitToZngur(tr.inner, scope), MethodsToZngur(methods, scope)), tr.span);
    case PFn(f) => FnKeepsPanicFlag(st, FnOf(f.inner, scope), f.span);
    case _ =>
  }

  lemma TypeKeepsPanicFlag(st: AddState, ty: Spanned<ParsedRustType>, items: seq<Spanned<ParsedTypeItem>>,
                           typeVars: Option<set<string>>, scope: Scope, p: CfgProvider)
    ensures AddType(st, ty, items, typeVars, scope, p).b.spec.convertPanicToException == st.b.spec.convertPanicToException
  {
  }

  lemma TraitKeepsPanicFlag(st: AddState, t: ZngurTrait, span: Span)
    ensures CheckedMerge(st, MergeTraitIntoSpec(t, st.b.spec), span).b.spec.convertPanicToException
            == st.b.spec.convertPanicToException
  {
  }

  lemma FnKeepsPanicFlag(st: AddState, f: ZngurFn, span: Span)
    ensures CheckedMerge(st, MergeFnIntoSpec(f, st.b.spec), span).b.spec.convertPanicToException
            == st.b.spec.convertPanicToException
  {
  }

  lemma {:induction false} ExternsKeepPanicFlag(st: AddState, es: seq<ParsedExternCppItem>, scope: Scope)
    ensures AddExterns(st, es, scope).b.spec.convertPanicToException == st.b.spec.convertPanicToException
    decreases |es|
  {
    if |es| > 0 {
      ExternsKeepPanicFlag(AddExtern(st, es[0], scope), es[1..], scope);
    }
  }

  // ---- files and imports ----

  /** `parse_into`: the file's items are processed and partitioned, added
      under the file's root scope, and then each import recorded by this
      file is parsed into the same builder one level deeper. `files` maps an
      import path to the parsed items of that file; `fuel` bounds the
      nesting of imports. */
  function ParseInto(st: AddState, items: seq<ParsedItem>, depth: nat, p: CfgProvider,
                     files: map<string, seq<ParsedItem>>, fuel: nat): AddState
    decreases fuel, 1, 0
  {
    var (xs, d) := ProcessItems(items, p);
    var parts := Partition(xs);
    var st1 := AddItems(st.(diags := st.diags + d), parts.items, RootScope(parts.aliases), depth, p);
    ResolveImports(st1.(b := st1.b.(imports := [])), st1.b.imports, depth, p, files, fuel)
  }

  function ResolveImports(st: AddState, imports: seq<string>, depth: nat, p: CfgProvider,
                          files: map<string, seq<ParsedItem>>, fuel: nat): AddState
    decreases fuel, 0, |imports|
  {
    if |imports| == 0 then st
    else
      var path := imports[0];
      var st1 :=
        if path !in files then Report(st, IMPORT_NOT_FOUND + path, None)
        else if fuel == 0 then st
        else ParseInto(st, files[path], depth + 1, p, files, fuel - 1);
      ResolveImports(st1, imports[1..], depth, p, files, fuel)
  }

  /** An imported file, and everything it imports in turn, leaves the
      panic flag as the main file set it. */
  lemma {:induction false} ImportsKeepPanicFlag(st: AddState, imports: seq<string>, depth: nat, p: CfgProvider,
                                                files: map<string, seq<ParsedItem>>, fuel: nat)
    ensures ResolveImports(st, imports, depth, p, files, fuel).b.spec.convertPanicToException == st.b.spec.convertPanicToException
    decreases fuel, 0, |imports|
  {
    if |imports| > 0 {
      var path := imports[0];
      var st1 :=
        if path !in files then Report(st, IMPORT_NOT_FOUND + path, None)
        else if fuel == 0 then st
        else ParseInto(st, files[path], depth + 1, p, files, fuel - 1);
      if path in files && fuel > 0 {
        NestedKeepsPanicFlag(st, files[path], depth + 1, p, files, fuel - 1);
      }
      ImportsKeepPanicFlag(st1, imports[1..], depth, p, files, fuel);
    }
  }

  lemma {:induction false} NestedKeepsPanicFlag(st: AddState, items: seq<ParsedItem>, depth: nat, p: CfgProvider,
                                                files: map<string, seq<ParsedItem>>, fuel: nat)
    requires depth > 0
    ensures ParseInto(st, items, depth, p, files, fuel).b.spec.convertPanicToException == st.b.spec.convertPanicToException
    decreases fuel, 1, 0
  {
    var (xs, d) := ProcessItems(items, p);
    var parts := Partition(xs);
    var st0 := st.(diags := st.diags + d);
    ImportedKeepsPanicFlag(st0, parts.items, RootScope(parts.aliases), depth, p);
    var st1 := AddItems(st0, parts.items, RootScope(parts.aliases), depth, p);
    ImportsKeepPanicFlag(st1.(b := st1.b.(imports := [])), st1.b.imports, depth, p, files, fuel);
  }

  // ---- finishing: templates and Drop ----

  function TemplateMessage(template: TemplateDef, ty: RustType, e: string): string {
    "Failed to apply template " + TypeToString(template.ty.ty) + " to type " + TypeToString(ty) + ": " + e
  }

  /** One template tried against the type as far as it has been rewritten. */
  function ApplyOne(t: ZngurType, d: seq<Diagnostic>, template: TemplateDef, defined: set<RustType>): (r: Result<(ZngurType, seq<Diagnostic>), string>)
    ensures r.Ok? ==> r.value.0.ty == t.ty && d <= r.value.1
  {
    match TryMatchTemplate(t.ty, template.ty, defined)
    case Err(e) => Err(e)
    case Ok(None) => Ok((t, d))
    case Ok(Some(tm)) =>
      var (t2, res) := MergeTemplateMatch(tm, t);
      Ok((t2, d + if res.Err? then [Diagnostic(TemplateMessage(template, t.ty, res.error.message), Some(template.span))] else []))
  }

  /** Every template, in order, tried against one declared type: a match is
      merged into it, a conflicting merge is reported at the template, and
      an unbound variable in a matched template is a panic (`Err`). */
  function ApplyTemplates(t: ZngurType, templates: seq<TemplateDef>, defined: set<RustType>): (r: Result<(ZngurType, seq<Diagnostic>), string>)
    ensures r.Ok? ==> r.value.0.ty == t.ty
    decreases |templates|
  {
    if |templates| == 0 then Ok((t, []))
    else
      var n := |templates| - 1;
      match ApplyTemplates(t, templates[..n], defined)
      case Err(e) => Err(e)
      case Ok((t1, d)) => ApplyOne(t1, d, templates[n], defined)
  }

  /** A declared layout survives every template applied to the type. */
  lemma {:induction false} TemplatesKeepLayout(t: ZngurType, templates: seq<TemplateDef>, defined: set<RustType>)
    requires t.layout.Some?
    ensures ApplyTemplates(t, templates, defined).Ok? ==> ApplyTemplates(t, templates, defined).value.0.layout == t.layout
    decreases |templates|
  {
    if |templates| > 0 {
      TemplatesKeepLayout(t, templates[..|templates| - 1], defined);
    }
  }

  predicate DropOrCopy(t: ZngurType) {
    Drop in t.wellknownTraits || Copy in t.wellknownTraits || Unsized in t.wellknownTraits
  }

  /** `Drop` is added to a type that is neither `Copy` nor `Unsized`. */
  function AddDrop(t: ZngurType): (r: ZngurType)
    ensures DropOrCopy(r)
    ensures r.ty == t.ty && r == t.(wellknownTraits := r.wellknownTraits) && t.wellknownTraits <= r.wellknownTraits
    ensures (Copy in t.wellknownTraits || Unsized in t.wellknownTraits) ==> r == t
    ensures |r.wellknownTraits| <= |t.wellknownTraits| + 1
  {
    if Copy in t.wellknownTraits || Unsized in t.wellknownTraits then t
    else t.(wellknownTraits := t.wellknownTraits + [Drop])
  }

  function FinishOne(t: ZngurType, templates: seq<TemplateDef>, defined: set<RustType>): (r: Result<(ZngurType, seq<Diagnostic>), string>)
    ensures r.Ok? ==> r.value.0.ty == t.ty && DropOrCopy(r.value.0)
  {
    match ApplyTemplates(t, templates, defined)
    case Err(e) => Err(e)
    case Ok((t1, d)) => Ok((AddDrop(t1), d))
  }

  /** The finishing pass over the declared types, in order. */
  function FinishTypes(types: seq<ZngurType>, templates: seq<TemplateDef>, defined: set<RustType>): (r: Result<(seq<ZngurType>, seq<Diagnostic>), string>)
    ensures r.Ok? ==> |r.value.0| == |types|
    decreases |types|
  {
    if |types| == 0 then Ok(([], []))
    else
      var n := |types| - 1;
      match FinishTypes(types[..n], templates, defined)
      case Err(e) => Err(e)
      case Ok((done, d)) =>
        match FinishOne(types[n], templates, defined)
        case Err(e) => Err(e)
        case Ok((t, d1)) => Ok((done + [t], d + d1))
  }

  /** `out` holds the types of `types`, in order, each `Drop`, `Copy` or `Unsized`. */
  predicate AllFinished(types: seq<ZngurType>, out: seq<ZngurType>) {
    |out| == |types| && forall i :: 0 <= i < |types| ==> out[i].ty == types[i].ty && DropOrCopy(out[i])
  }

  lemma AllFinishedSnoc(types: seq<ZngurType>, out: seq<ZngurType>, t0: ZngurType, t: ZngurType)
    requires AllFinished(types, out) && t.ty == t0.ty && DropOrCopy(t)
    ensures AllFinished(types + [t0], out + [t])
  {
  }

  /** The pass over a non-empty list is the pass over its front, then the last type. */
  lemma FinishTypesLast(types: seq<ZngurType>, templates: seq<TemplateDef>, defined: set<RustType>)
    requires |types| > 0
    ensures var n := |types| - 1;
            FinishTypes(types, templates, defined) ==
              match FinishTypes(types[..n], templates, defined)
              case Err(e) => Err(e)
              case Ok((done, d)) =>
                match FinishOne(types[n], templates, defined)
                case Err(e) => Err(e)
                case Ok((t, d1)) => Ok((done + [t], d + d1))
  {
  }

  /** Every finished type is the declared type at the same position, now
      `Drop`, `Copy` or `Unsized`. */
  lemma {:induction false} FinishTypesDrop(types: seq<ZngurType>, templates: seq<TemplateDef>, defined: set<RustType>)
    ensures var r := FinishTypes(types, templates, defined);
            r.Ok? ==> AllFinished(types, r.value.0)
    decreases |types|
  {
    var r := FinishTypes(types, templates, defined);
    if |types| > 0 && r.Ok? {
      var n := |types| - 1;
      FinishTypesLast(types, templates, defined);
      FinishTypesDrop(types[..n], templates, defined);
      var done := FinishTypes(types[..n], templates, defined).value.0;
      var t := FinishOne(types[n], templates, defined).value.0;
      AllFinishedSnoc(types[..n], done, types[n], t);
      SeqUtil.LastSplit(types);
    }
  }

  function DefinedTypes(types: seq<ZngurType>): (r: set<RustType>)
    ensures forall i :: 0 <= i < |types| ==> types[i].ty in r
    ensures forall x :: x in r ==> exists i :: 0 <= i < |types| && types[i].ty == x
  {
    set i | 0 <= i < |types| :: types[i].ty
  }

  /** `ZngurSpecBuilder::to_zngur`. */
  function ToZngur(b: Builder): (r: Result<(ZngurSpec, seq<Diagnostic>), string>)
  {
    match FinishTypes(b.spec.types, b.templates, DefinedTypes(b.spec.types))
    case Err(e) => Err(e)
    case Ok((types, d)) => Ok((b.spec.(types := types), d))
  }

  /** After finishing, every type is `Drop`, `Copy` or `Unsized`; the types
      are the declared ones, in order, and nothing else in the specification changes. */
  lemma ToZngurDrop(b: Builder)
    ensures var r := ToZngur(b);
            r.Ok? ==> |r.value.0.types| == |b.spec.types| && r.value.0 == b.spec.(types := r.value.0.types) &&
                      forall i :: 0 <= i < |b.spec.types| ==> r.value.0.types[i].ty == b.spec.types[i].ty && DropOrCopy(r.value.0.types[i])
  {
    FinishTypesDrop(b.spec.types, b.templates, DefinedTypes(b.spec.types));
  }

  /** Without templates, finishing only adds `Drop`, reports nothing and cannot fail. */
  lemma {:induction false} NoTemplatesOnlyDrop(types: seq<ZngurType>, defined: set<RustType>)
    ensures FinishTypes(types, [], defined) == Ok((seq(|types|, i requires 0 <= i < |types| => AddDrop(types[i])), []))
    decreases |types|
  {
    if |types| > 0 {
      var n := |types| - 1;
      NoTemplatesOnlyDrop(types[..n], defined);
      assert ApplyTemplates(types[n], [], defined) == Ok((types[n], []));
      assert FinishOne(types[n], [], defined) == Ok((AddDrop(types[n]), []));
      var want := seq(|types|, i requires 0 <= i < |types| => AddDrop(types[i]));
      var pre := seq(n, i requires 0 <= i < n => AddDrop(types[..n][i]));
      assert want == pre + [AddDrop(types[n])];
      var none: seq<Diagnostic> := [];
      assert FinishTypes(types, [], defined) == Ok((pre + [AddDrop(types[n])], none + none));
      assert none + none == none;
    } else {
      assert seq(|types|, i requires 0 <= i < |types| => AddDrop(types[i])) == [];
    }
  }

  lemma ApplyStep(t0: ZngurType, templates: seq<TemplateDef>, j: nat, defined: set<RustType>)
    requires j < |templates|
    ensures ApplyTemplates(t0, templates[..j + 1], defined) ==
              match ApplyTemplates(t0, templates[..j], defined)
              case Err(e) => Err(e)
              case Ok((t, d)) => ApplyOne(t, d, templates[j], defined)
  {
    assert templates[..j + 1][..j] == templates[..j];
    assert templates[..j + 1][j] == templates[j];
  }

  /** The templates applied in turn to one type, rewriting it in place. */
  method ApplyTemplatesTo(t0: ZngurType, templates: seq<TemplateDef>, defined: set<RustType>)
    returns (r: Result<(ZngurType, seq<Diagnostic>), string>)
    ensures r == ApplyTemplates(t0, templates, defined)
  {
    var t := t0;
    var d: seq<Diagnostic> := [];
    var j := 0;
    while j < |templates|
      invariant 0 <= j <= |templates|
      invariant ApplyTemplates(t0, templates[..j], defined) == Ok((t, d))
    {
      ApplyStep(t0, templates, j, defined);
      var next := ApplyOne(t, d, templates[j], defined);
      if next.Err? {
        ApplyPrefixFails(t0, templates, j + 1, defined);
        return Err(next.error);
      }
      t, d := next.value.0, next.value.1;
      j := j + 1;
    }
    assert templates[..j] == templates;
    r := Ok((t, d));
  }

  /** The finishing pass as the source writes it: each declared type in
      turn is rewritten in place by the templates and then given `Drop`. */
  method FinishSpec(b: Builder) returns (r: Result<(ZngurSpec, seq<Diagnostic>), string>)
    ensures r == ToZngur(b)
  {
    var defined := DefinedTypes(b.spec.types);
    var types := b.spec.types;
    var diags: seq<Diagnostic> := [];
    var i := 0;
    while i < |types|
      invariant Finishing(b.spec.types, b.templates, defined, i, types, diags)
    {
      FinishingCurrent(b.spec.types, b.templates, defined, i, types, diags);
      var applied := ApplyTemplatesTo(types[i], b.templates, defined);
      if applied.Err? {
        FinishingFails(b.spec.types, b.templates, defined, i, types, diags);
        return Err(applied.error);
      }
      FinishingAdvance(b.spec.types, b.templates, defined, i, types, diags);
      types := types[i := AddDrop(applied.value.0)];
      diags := diags + applied.value.1;
      i := i + 1;
    }
    FinishingDone(b.spec.types, b.templates, defined, types, diags);
    r := Ok((b.spec.(types := types), diags));
  }

  /** The first `i` declared types are finished in `types`, the rest still
      as declared, and `diags` holds what finishing them reported. */
  predicate Finishing(src: seq<ZngurType>, templates: seq<TemplateDef>, defined: set<RustType>,
                      i: nat, types: seq<ZngurType>, diags: seq<Diagnostic>) {
    i <= |types| == |src| && types[i..] == src[i..] &&
    FinishTypes(src[..i], templates, defined) == Ok((types[..i], diags))
  }

  lemma FinishingCurrent(src: seq<ZngurType>, templates: seq<TemplateDef>, defined: set<RustType>,
                         i: nat, types: seq<ZngurType>, diags: seq<Diagnostic>)
    requires Finishing(src, templates, defined, i, types, diags) && i < |src|
    ensures types[i] == src[i]
  {
    assert types[i..][0] == src[i..][0];
  }

  lemma FinishingAdvance(src: seq<ZngurType>, templates: seq<TemplateDef>, defined: set<RustType>,
                         i: nat, types: seq<ZngurType>, diags: seq<Diagnostic>)
    requires Finishing(src, templates, defined, i, types, diags) && i < |src|
    requires ApplyTemplates(src[i], templates, defined).Ok?
    ensures var (t, d) := ApplyTemplates(src[i], templates, defined).value;
            Finishing(src, templates, defined, i + 1, types[i := AddDrop(t)], diags + d)
  {
    var (t, d) := ApplyTemplates(src[i], templates, defined).value;
    FinishStep(src, i, templates, defined);
    SliceUpdate(types, i, AddDrop(t));
    assert types[i + 1..] == types[i..][1..];
    assert src[i + 1..] == src[i..][1..];
  }

  lemma FinishingFails(src: seq<ZngurType>, templates: seq<TemplateDef>, defined: set<RustType>,
                       i: nat, types: seq<ZngurType>, diags: seq<Diagnostic>)
    requires Finishing(src, templates, defined, i, types, diags) && i < |src|
    requires ApplyTemplates(src[i], templates, defined).Err?
    ensures FinishTypes(src, templates, defined) == Err(ApplyTemplates(src[i], templates, defined).error)
  {
    FinishStep(src, i, templates, defined);
    FinishFailsOnward(src, i + 1, templates, defined);
  }

  lemma FinishingDone(src: seq<ZngurType>, templates: seq<TemplateDef>, defined: set<RustType>,
                      types: seq<ZngurType>, diags: seq<Diagnostic>)
    requires Finishing(src, templates, defined, |src|, types, diags)
    ensures FinishTypes(src, templates, defined) == Ok((types, diags))
  {
    assert src[..|src|] == src;
    assert types[..|types|] == types;
  }

  lemma SliceUpdate<T>(v: seq<T>, i: nat, x: T)
    requires i < |v|
    ensures v[i := x][..i + 1] == v[..i] + [x] && v[i := x][i + 1..] == v[i + 1..]
  {
  }

  /** One more declared type finished: the pass over the longer prefix. */
  lemma FinishStep(types: seq<ZngurType>, i: nat, templates: seq<TemplateDef>, defined: set<RustType>)
    requires i < |types|
    ensures FinishTypes(types[..i + 1], templates, defined) ==
              match FinishTypes(types[..i], templates, defined)
              case Err(e) => Err(e)
              case Ok((done, d)) =>
                match ApplyTemplates(types[i], templates, defined)
                case Err(e) => Err(e)
                case Ok((t, d1)) => Ok((done + [AddDrop(t)], d + d1))
  {
    assert types[..i + 1][..i] == types[..i];
    assert types[..i + 1][i] == types[i];
  }

  /** Once one prefix of the templates fails, so do all longer prefixes. */
  lemma {:induction false} ApplyPrefixFails(t: ZngurType, templates: seq<TemplateDef>, j: nat, defined: set<RustType>)
    requires j <= |templates|
    requires ApplyTemplates(t, templates[..j], defined).Err?
    ensures ApplyTemplates(t, templates, defined) == ApplyTemplates(t, templates[..j], defined)
    decreases |templates| - j
  {
    if j < |templates| {
      assert templates[..j + 1][..j] == templates[..j];
      ApplyPrefixFails(t, templates, j + 1, defined);
    } else {
      assert templates[..j] == templates;
    }
  }

  lemma {:induction false} FinishFailsOnward(types: seq<ZngurType>, k: nat, templates: seq<TemplateDef>, defined: set<RustType>)
    requires k <= |types|
    requires FinishTypes(types[..k], templates, defined).Err?
    ensures FinishTypes(types, templates, defined) == FinishTypes(types[..k], templates, defined)
    decreases |types| - k
  {
    if k < |types| {
      assert types[..k + 1][..k] == types[..k];
      FinishFailsOnward(types, k + 1, templates, defined);
    } else {
      assert types[..k] == types;
    }
  }

  // ---- the whole front end ----

  /** `ZngParser::parse`: the cfg pairs are recorded (in the provider's key
      order `order`), the main file is parsed with its imports, and the
      specification is finished. */
  function Parse(items: seq<ParsedItem>, p: CfgProvider, order: seq<string>,
                 files: map<string, seq<ParsedItem>>, fuel: nat): (r: Result<(ZngurSpec, seq<Diagnostic>), string>)
    requires p.InMemory? ==> forall k :: k in order ==> k in p.cfg
    ensures r.Ok? ==> forall i :: 0 <= i < |r.value.0.types| ==> DropOrCopy(r.value.0.types[i])
  {
    var start := AddState(Builder(EMPTY_SPEC.(rustCfg := GetCfgPairs(p, order)), [], []), []);
    var st := ParseInto(start, items, 0, p, files, fuel);
    ToZngurDrop(st.b);
    match ToZngur(st.b)
    case Err(e) => Err(e)
    case Ok((spec, d)) => Ok((spec, st.diags + d))
  }
}
