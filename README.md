# zngur, modelled in Dafny

zngur generates the glue that lets C++ call Rust, and Rust call C++. A
`.zng` file declares which Rust types, methods and functions C++ sees.
The generator reads it into a `ZngurSpec`: types with their layout
policies, methods, constructors, fields and well-known traits, plus free
functions and C++ impls. It then writes three files:

- a Rust file of `extern "C"` functions with mangled link names;
- a C++ header whose classes own Rust values through a drop flag;
- a small C++ source file.

Around the generator sit several smaller pieces:

- an automatic layout extractor that compiles a probe and caches the sizes it reads;
- a command-line tool;
- a build-script API;
- a tool that sketches `.zng` files from rustdoc output;
- developer tasks that format templates and check example output;
- the documentation book's sidebar script;
- example crates that exercise the generated glue.

This project models that core as Dafny modules, one per source file or
closely related group of files. Every module is proved against its own
specification functions.

| module | what it models |
|---|---|
| `ZngurDef`, `ZngurMerge`, `Rdoc` | the specification data model and its `Display` text; the `Merge` partial unions; the conversion from rustdoc |
| `ZngPaths`, `ZngTypeItems`, `ZngItems`, `ZngBuilder`, `Cfg`, `Conditional`, `TemplateTypes` | the current `.zng` front end after parsing: scopes, aliases, type bodies, layout checks, `#if`/`#match` evaluation, imports, and template matching and substitution |
| `LegacyTokens`, `LegacyParser` | the older front end of `zngur-generator/src/parser.rs` |
| `RustGen`, `IntoCpp`, `RustEmit`, `CppTypes`, `BuiltinTypes`, `GenRender`, `Generator` | code generation: symbol mangling, Rust-to-C++ type names, the Rust glue buffer, C++ paths and types, the builtin type list, and `ZngurGenerator::render` step by step and as a whole |
| `LayoutExtractor`, `LayoutCache`, `CfgExtractor`, `CliMain`, `ZngurApi`, `AutoZng` | the layout probe and its cache, `RUSTFLAGS` and rustc cfg parsing, the CLI's type-size reader and default paths, the `Zngur` builder, and `zngur-autozng` |
| `TemplateFormat`, `CiCompare` | the Sailfish tag/comment swap around clang-format; the expected-output comparison with `{{re:…}}` placeholders |
| `Toc` | the book's `MDBookSidebarScrollbox` element |
| `CppGlue`, `RustGlue` | the runtime protocol of the generated code: drop flags, moves, borrows, call wrappers, panic reporting, `char`/`bool`/`str` literals |
| `Inventory`, `BlobStore`, `Iterators`, `Primes`, `Benchmark`, `Greeters`, `MemoryManagement` | the example programs that keep real state |
| `StrUtil`, `SeqUtil`, `Wrappers` | shared helpers: text search and splitting, decimal numerals, sorting, `Option` and `Result` |

Most panics and `unwrap` failures in the source are an `Err` or `None`
result in the model. A few are preconditions instead, each named under
"## Left out": the generator's demand that every item of a specification
can be written (`Generator.SpecRenderable`: expressible types, normal
traits without static methods), the equal-`ty` guard of a type merge, and
the rustdoc invariants the `Rdoc` conversion unwraps (the crate root's own
index entry, the `unwrap` of `ConvertPath` and `FromCrate`). Diagnostics
are returned as lists of messages. File contents,
processes, the environment and opaque libraries are parameters of the
operations that use them.

## Source notes

The source files come from more than one snapshot of the repository, and
the model follows each file as written (a defect listed under "## Findings" is modelled both as written and corrected, and the rest of the model builds on the corrected form):

- `zngur-generator/src/cpp.rs` is an older C++ emitter than the one `zngur-generator/src/lib.rs` calls, and `CppPath::from_rust_path` is not defined in it; `CppTypes.FromRustPath` follows the Rust path's segments under the `rust` namespace, as `zngur-generator/src/rust.rs` uses it.
- `zngur-def/src/lib.rs` has no `RustType::TypeVar`, but the template code uses one; the `RustType` datatype has it. `layout` is optional wherever the merge code treats it so.
- The parser stores a field's `offset` as a plain `usize`, while the definition makes it optional; the model stores `Some(offset)`.
- `add_layout_policy_shim` in `zngur-generator/src/rust.rs` has no arm for the conservative policy, so the model's callers never pass it.
- The `IntoCpp` impl for `RustType` has no arm for `char`, although the data model has one; `IntoCpp.Expressible` leaves out `char`, `impl Trait`, type variables, and floats other than `f32`/`f64`.

Notes on the sidebar script (`toc.js`):

- every link that matches the current page is marked active; there is no stop at the first match;
- the remembered scroll offset is removed even when it is absent;
- an empty stored offset counts as absent;
- a link with an empty `href` is not rewritten.

## Model

| member | source | states |
|---|---|---|
| ZngurMerge.PushUnique | zngur-def/src/merge.rs:41-45 | the vector grows by one, with the item at the end, exactly when the item was absent; otherwise it is unchanged; the element set becomes old elements plus the item |
| ZngurMerge.UnionLaws | zngur-def/src/merge.rs:47-52 | union keeps `into` as a prefix, contains exactly the elements of both, stays duplicate-free, and is the identity when every incoming element is present |
| ZngurMerge.Union | zngur-def/src/merge.rs:47-52 | the union adds at most one element per incoming element and removes none |
| ZngurMerge.InplaceUnion | zngur-def/src/merge.rs:48-52 | the push loop computes the union specification: `into` stays a prefix and the elements are those of both vectors |
| ZngurMerge.FindKey | zngur-def/src/merge.rs:63 | the index returned is the first element with the wanted identity; `None` means no element has it |
| ZngurMerge.MergeByIdentityLaws | zngur-def/src/merge.rs:54-70 | existing elements keep their place, nothing outside the two inputs appears, on success every incoming identity is present, and unique identities stay unique |
| ZngurMerge.MergeByIdentity | zngur-def/src/merge.rs:54-70 | the merge removes no element and appends at most one per incoming item |
| ZngurMerge.MergeByIdentityIdempotent | zngur-def/src/merge.rs:57-70 | merging items that are already present (unique identities) succeeds and changes nothing |
| ZngurMerge.MergeByIdentityConflict | zngur-def/src/merge.rs:63-64 | an incoming item whose identity belongs to a different element is a `Conflict`, reported as the first failure |
| ZngurMerge.MergeByIdentityLoop | zngur-def/src/merge.rs:57-70 | the loop with early return computes the same vector and result as the specification fold, keeping `into` as a prefix |
| ZngurMerge.MergeExact | zngur-def/src/merge.rs:185-248 | an exact-match merge (C++ value, C++ ref, method, constructor, field) succeeds iff both values are equal, else it is a `Conflict` with that merge's message |
| ZngurMerge.MergeOption | zngur-def/src/merge.rs:72-89 | a `None` source leaves `into` unchanged; `Some` into `None` installs it; `Some`/`Some` keeps `into` and succeeds iff the payloads agree |
| ZngurMerge.MergeLayout | zngur-def/src/merge.rs:133-150 | only the layout changes; two different `Some` layouts are a layout conflict with `into` untouched; otherwise the layout becomes `into.layout.or(src.layout)`, and the merge then fails with the `cpp_ref` conflict exactly when the source has a `cpp_ref` and that layout is not the zero-sized one |
| ZngurMerge.MergeCpp | zngur-def/src/merge.rs:151-152 | only `cpp_value`/`cpp_ref` change; the stage succeeds exactly when neither pair holds two different values, and each then becomes `into`'s value or else the source's; a value clash is "Cpp value mismatch" with nothing changed, a ref clash "Cpp ref mismatch" with the ref kept |
| ZngurMerge.MergeMembers | zngur-def/src/merge.rs:154-163 | only traits, methods, constructors and fields change: the traits become the union; methods, constructors and fields are merged by name in that order, and the first failing merge is the result, leaving the later lists as they were |
| ZngurMerge.MergeType | zngur-def/src/merge.rs:122-165 | the merged type keeps its `ty` (equal `ty`s are required; the source panics otherwise) |
| ZngurMerge.MergeTypeLayout | zngur-def/src/merge.rs:133-143 | two different `Some` layouts give a conflict; otherwise the resulting layout is `into.layout.or(src.layout)` |
| ZngurMerge.MergeTypeCppRef | zngur-def/src/merge.rs:145-150 | a successful merge involving a `cpp_ref` leaves the zero-sized layout, and an existing other layout makes it fail |
| ZngurMerge.MergeTypeIdempotent | zngur-def/src/merge.rs:122-165 | merging a well-formed type (no duplicate traits or member names, `cpp_ref` only with the zero-sized layout) into itself succeeds and changes nothing |
| ZngurMerge.MergeMembersKeeps | zngur-def/src/merge.rs:156-162 | existing traits, methods, constructors and fields stay in place as prefixes |
| ZngurMerge.MergeTraitLaws | zngur-def/src/merge.rs:167-183 | a trait merge never fails, keeps the trait name and keeps `into`'s methods in front, adding only new ones |
| ZngurMerge.FindEntry | zngur-def/src/merge.rs:105-106 | an index-map lookup finds the entry with the key, or reports that no entry has it |
| ZngurMerge.MergeEntriesLaws | zngur-def/src/merge.rs:91-119 | existing keys stay in order, on success every incoming key is present, keys stay unique, a failure is a value-merge failure, and an entry whose key no incoming pair has keeps its value |
| ZngurMerge.MergeEntries | zngur-def/src/merge.rs:91-119 | the map loses no entry and gains at most one per incoming pair |
| ZngurMerge.MergeEntriesSingle | zngur-def/src/merge.rs:105-117 | one pair merged into the map: a vacant key is appended with the incoming value; an occupied key gets, in place, the merge of the incoming value into its own, and that merge's outcome is the result |
| ZngurMerge.FindType | zngur-def/src/merge.rs:213-220 | finds the first spec type with the wanted `ty`, or reports that none has it |
| ZngurMerge.MergeTypeIntoSpec | zngur-def/src/merge.rs:211-221 | only `types` changes: an unknown `ty` is appended; for a known one, the first entry with that `ty` becomes the merge of the incoming declaration into it, and that merge's outcome is the result; no entry changes its `ty` |
| ZngurMerge.MergeTypeIntoSpecUnique | zngur-def/src/merge.rs:211-221 | merging into a specification never creates two entries for the same Rust type |
| ZngurMerge.MergeTraitIntoSpec | zngur-def/src/merge.rs:250-255 | only the trait map changes: an unknown trait is appended as given; a known one has its entry replaced, in place, by the existing trait with the incoming methods merged into it |
| ZngurMerge.MergeTraitIntoSpecLaws | zngur-def/src/merge.rs:250-255 | merging a trait always succeeds, keeps existing keys in order, makes the trait's name a key and keeps keys unique; a trait already present keeps its methods in front and afterwards has exactly the methods of both |
| ZngurMerge.MergeFnIntoSpec | zngur-def/src/merge.rs:257-263 | only `funcs` changes; the function is present afterwards, existing ones stay, and a present function changes nothing |
| ZngurMerge.MergeExternCppFnIntoSpec | zngur-def/src/merge.rs:265-271 | the same push-unique law for extern C++ functions |
| ZngurMerge.MergeExternCppImplIntoSpec | zngur-def/src/merge.rs:273-279 | the same push-unique law for extern C++ impls |
| ZngurMerge.MergeAdditionalIncludes | zngur-def/src/merge.rs:281-287 | additional includes are concatenated: old text followed by the new text |
| ZngurMerge.MergeConvertPanicToException | zngur-def/src/merge.rs:289-298 | the panic-to-exception flag becomes the OR of both flags, and nothing else changes |
| ZngurMerge.SpecMergesIdempotent | zngur-def/src/merge.rs:257-298 | merging the same flag or the same function twice equals merging it once |
| ZngurDef.TakeAssocs | zngur-def/src/lib.rs:182-190 | a `Normal` trait yields its named generics and is returned with none, path and positional generics untouched; a `Fn` trait yields nothing and is unchanged |
| ZngurDef.TakeAssocsRestore | zngur-def/src/lib.rs:182-190 | putting the taken associated types back restores the original trait |
| ZngurDef.PrimitiveDisplayShape | zngur-def/src/lib.rs:278-289 | a primitive's name has a digit as its second character exactly for `u{n}`/`i{n}`/`f{n}`, and then the tail is the decimal width |
| ZngurDef.PrimitiveDisplayInjective | zngur-def/src/lib.rs:278-289 | two primitives with the same display name are the same primitive |
| ZngurDef.PathDisplayRoot | zngur-def/src/lib.rs:234-239 | a path displays with a leading `::` unless its first segment is `crate`, which is written bare |
| ZngurDef.TypeToString | zngur-def/src/lib.rs:275-314 | each form opens with its own sigil or keyword (`&`, `&mut `, `*const `, `*mut `, `Box<`, `(`, `[`, `dyn `, `impl `), the bracketed ones close with the matching bracket, and a type variable displays as its bare name |
| ZngurDef.SegmentsNoChar | zngur-def/src/lib.rs:234-239 | joining the segments adds only `:` characters |
| ZngurDef.PathWithoutGenericsHasNoAngle | zngur-def/src/lib.rs:240-251 | without generics no `<` is written: the turbofish appears only when there are generics |
| ZngurDef.PathWithGenericsEndsInAngle | zngur-def/src/lib.rs:240-251 | with any positional or named generic the path text ends in `>` |
| ZngurDef.FnTraitUnitOutput | zngur-def/src/lib.rs:256-273 | a `Fn` trait with unit output is `name(a, b)` with no arrow |
| ZngurDef.DisplayUnitAndRefs | zngur-def/src/lib.rs:290-296 | unit displays as `()`, `&str` and `&mut bool` as written |
| ZngurDef.DisplayCratePath | zngur-def/src/lib.rs:234-239 | `crate::Greeter` displays with no leading `::` |
| ZngurDef.DisplayGenericPath | zngur-def/src/lib.rs:228-254 | `Vec<i32>` under `std::vec` displays as `::std::vec::Vec::<i32>` |
| ZngurDef.DisplayI32 | zngur-def/src/lib.rs:280 | `i32` displays as `i32` |
| ZngurDef.DisplayStdVecPath | zngur-def/src/lib.rs:234-239 | the segments `std`, `vec`, `Vec` display as `::std::vec::Vec` |
| Rdoc.MutabilityOf | zngur-def/src/rdoc.rs:471-492 | a rustdoc `is_mutable` flag maps to `Mut` exactly when it is set |
| Rdoc.ConvertTypes | zngur-def/src/rdoc.rs:438-444 | a tuple's elements are converted one by one, keeping their number and order |
| Rdoc.ConvertType | zngur-def/src/rdoc.rs:355-505 | a resolved path becomes an ADT on the `::`-split path with no named generics, a generic its one-segment name; tuples keep their arity; slices and arrays become slices; pointers and references keep their kind and mutability; a function pointer becomes a `dyn` `Fn` trait with one input per parameter; `impl`, inferred and empty `dyn` types become unit; no result is a type variable, `impl` or `Box` |
| Rdoc.ConvertParams | zngur-def/src/rdoc.rs:416-421 | a function pointer's parameter types are converted one by one, keeping their number and order |
| Rdoc.ConvertArg | zngur-def/src/rdoc.rs:366-372 | a type argument converts to that one type; any other argument contributes nothing |
| Rdoc.ConvertArgs | zngur-def/src/rdoc.rs:364-380 | there are exactly as many generics as type arguments: lifetimes, consts and inferred arguments are skipped |
| Rdoc.ConvertArgsAreTypeArgs | zngur-def/src/rdoc.rs:364-380 | the generics of a path are its type arguments, each converted, in their order |
| Rdoc.ConvertTypeShaped | zngur-def/src/rdoc.rs:355-504 | every converted type has no `impl`, `Box`, template variable, `dyn` marker bound or named generic, and function pointers become a `fn` trait |
| Rdoc.ConvertTypesShaped | zngur-def/src/rdoc.rs:438-444 | tuple elements convert to types of that shape |
| Rdoc.ConvertParamsShaped | zngur-def/src/rdoc.rs:414-437 | function-pointer parameters convert to types of that shape |
| Rdoc.ConvertArgsShaped | zngur-def/src/rdoc.rs:364-380 | generic arguments convert to types of that shape |
| Rdoc.ConvertArgShaped | zngur-def/src/rdoc.rs:366-372 | a single generic argument converts to at most one type of that shape |
| Rdoc.ConvertTypeSpecialCases | zngur-def/src/rdoc.rs:385-503 | an array converts as a slice, `impl`/inferred types become unit, a qualified path becomes its self type, an empty `dyn` is unit and only the first trait of a `dyn` is kept; pointers and references keep their mutability |
| Rdoc.ConvertPath | zngur-def/src/rdoc.rs:308-315 | it reports local iff the crate id is 0; then the first segment becomes `crate` and the rest is kept; otherwise the summary is unchanged |
| Rdoc.WellknownOfTraitName | zngur-def/src/rdoc.rs:181-199 | exactly the names `Debug`, `Drop`, `Unsized`, `Copy` contribute the matching well-known trait; any other name contributes none |
| Rdoc.FindSelf | zngur-def/src/rdoc.rs:215-220 | returns the index of the first parameter named `self` (no earlier parameter has that name), or reports that there is none |
| Rdoc.NonSelfParams | zngur-def/src/rdoc.rs:245-253 | a parameter is kept exactly when it is an input not named `self`; without `self` the inputs are unchanged |
| Rdoc.NonSelfParamsAppend | zngur-def/src/rdoc.rs:245-253 | dropping `self` keeps the parameters in their order: it distributes over concatenation |
| Rdoc.ReceiverOf | zngur-def/src/rdoc.rs:221-243 | no `self` gives Static; `&self`/`&mut self` gives a reference receiver of that mutability; a generic `self` gives Move; any other `self` type is an error (the source panics) |
| Rdoc.OutputOf | zngur-def/src/rdoc.rs:255-259 | a missing output becomes unit; a declared one is converted |
| Rdoc.FnToZngMethod | zngur-def/src/rdoc.rs:205-267 | nothing is produced exactly when the id is not a function item or a method (a `self` receiver) has no name; an error exactly when the receiver cannot be read; a produced method is a non-generic function item with its own name, the receiver chosen from `self`, the non-`self` parameters converted one by one as inputs, and the converted output (unit when none is declared) |
| Rdoc.FnToZngFn | zngur-def/src/rdoc.rs:269-306 | nothing is produced exactly when the id has no item or no path entry, or a layout-keyed path names something other than a function; a produced free function has every parameter converted as an input, the converted output, no generics and the converted summary path; it fails exactly when a local item has an empty path, where the source panics |
| Rdoc.ResolveSelfOutput | zngur-def/src/rdoc.rs:166-171 | only the output may change, and only to the owning type; no `Self` output is left unless the owner is itself `Self` |
| Rdoc.ResolveSelfOutputIdempotent | zngur-def/src/rdoc.rs:166-171 | resolving twice is resolving once, and a method whose output is not `Self` is unchanged |
| Rdoc.ProcessMethodsExtends | zngur-def/src/rdoc.rs:162-178 | an inherent impl only appends methods, each with no use path and no deref |
| Rdoc.ProcessImplsExtends | zngur-def/src/rdoc.rs:150-202 | processing impls only appends methods and well-known traits; the type and its other parts stay |
| Rdoc.ProcessImpls | zngur-def/src/rdoc.rs:150-202 | the nested loops compute the impl-processing specification |
| Rdoc.ConvertStruct | zngur-def/src/rdoc.rs:82-116 | a struct is skipped exactly when it has no path entry; with a path and a layout it is the struct seed (its path, that layout, `Drop`) with its impls processed, an impl's error being the result; a local struct with an empty path, or one whose layout key has no layout, is an error where the source panics on `unwrap` |
| Rdoc.ConvertEnum | zngur-def/src/rdoc.rs:118-148 | an enum is skipped exactly when it has no path entry; with a path it is the heap-allocated enum seed with its impls processed, an impl's error being the result; a local enum with an empty path is an error where the source panics on `unwrap` |
| Rdoc.ConvertedTypes | zngur-def/src/rdoc.rs:82-148 | a struct becomes a generic-free ADT with `Drop` first and the layout found under its last segment (local) or `::`-joined path; an enum becomes heap allocated; neither gets constructors, fields or C++ values |
| Rdoc.GrowsTrans | zngur-def/src/rdoc.rs:5-80 | the "only types and functions grow" relation composes |
| Rdoc.FromCrateStepGrows | zngur-def/src/rdoc.rs:8-24 | one index item adds at most one type or function |
| Rdoc.FromCrateShape | zngur-def/src/rdoc.rs:5-80 | converting a crate fills only the type and function lists, appending at most one entry per index item, and every added function is non-generic |
| Rdoc.FromCrate | zngur-def/src/rdoc.rs:5-80 | the loop over the crate index computes the conversion specification, stopping at the first error |
| ZngPaths.PathToZngur | zngur-parser/src/lib.rs:192-208 | an absolute path is its segments; a relative one is the base followed by the segments; a crate path is `crate` followed by the segments |
| ZngPaths.Expand | zngur-parser/src/lib.rs:210-260 | an alias expands a path exactly when it matches, that is a relative path whose first segment is the alias name |
| ZngPaths.ExpandIsSubstitution | zngur-parser/src/lib.rs:229-260 | expansion replaces the alias name with the alias path, resolved by the alias's own start kind, and keeps the rest |
| ZngPaths.ExpandFirst | zngur-parser/src/lib.rs:127-138 | the alias search finds nothing exactly when no alias matches |
| ZngPaths.ExpandFirstIsFirst | zngur-parser/src/lib.rs:127-138 | the first matching alias decides the expansion |
| ZngPaths.ExpandFirstAppend | zngur-parser/src/lib.rs:149-159 | aliases of the inner list are tried before those of the outer list |
| ZngPaths.RootScope | zngur-parser/src/lib.rs:118-125 | the root scope holds the given aliases, an empty base and no type variables |
| ZngPaths.ResolvePath | zngur-parser/src/lib.rs:127-138 | with no matching alias, or for a non-relative path, resolution is plain `to_zngur` against the base |
| ZngPaths.SimpleRelativePath | zngur-parser/src/lib.rs:141-147 | the result is the base followed by the one name |
| ZngPaths.SubScope | zngur-parser/src/lib.rs:149-159 | a sub-scope puts the new aliases before the outer ones, resolves its base through the outer scope and keeps the type variables |
| ZngPaths.WithTypeVars | zngur-parser/src/lib.rs:161-167 | only the type-variable set changes |
| ZngPaths.NearestScopeWins | zngur-parser/src/lib.rs:149-159 | inside a module an inner alias shadows an outer one of the same name, and an outer alias still applies when no inner one matches |
| ZngPaths.NearestScopeExample | zngur-parser/src/tests.rs:214-232 | `MyString` resolves to `crate::MyLocalString` inside the module and to `::std::string::String` outside it |
| ZngPaths.AsTypeVar | zngur-parser/src/lib.rs:169-190 | a path names a type variable exactly when it is a bare one-segment relative path without generics whose name is in scope |
| ZngPaths.NamedToZngur | zngur-parser/src/lib.rs:811-826 | named generics keep their names, count and order, each type converted in the scope |
| ZngPaths.PgToZngur | zngur-parser/src/lib.rs:810-826 | the path is resolved in the scope and the generic lists keep their lengths, each element converted in place |
| ZngPaths.TypeToZngur | zngur-parser/src/lib.rs:750-773 | every form is kept with its mutability and tuple arity; a path becomes a type variable exactly when it is a bare name bound in scope, and any other path is resolved in the scope |
| ZngPaths.TypesToZngur | zngur-parser/src/lib.rs:750-773 | a list of types is converted element by element, keeping length and order |
| ZngPaths.ResolveUnresolve | zngur-parser/src/lib.rs:749-775 | an absolute-path spelling of a type whose variables are in scope resolves back to the same type, whatever aliases are in force |
| ZngPaths.ResolveUnresolveList | zngur-parser/src/lib.rs:749-775 | the same, element-wise, for a list of types |
| ZngPaths.ResolveUnresolveNamed | zngur-parser/src/lib.rs:811-826 | the same for named generics |
| ZngPaths.ResolveUnresolvePg | zngur-parser/src/lib.rs:169-190 | an absolute path is never a type variable and resolves back to itself |
| ZngPaths.ResolveUnresolveTrait | zngur-parser/src/lib.rs:786-802 | the same for traits |
| ZngPaths.MethodOf | zngur-parser/src/lib.rs:1654-1684 | a first argument `self` gives Move, `&self`/`&mut self` a reference receiver with that mutability, anything else Static; the receiver leaves the inputs; `async` wraps the output in a future |
| ZngPaths.MethodToZngur | zngur-parser/src/lib.rs:381-395 | the name and receiver are kept; inputs and generics are converted element by element, keeping length and order, and the output is converted |
| ZngPaths.AsyncOutputResolves | zngur-parser/src/lib.rs:1676-1684 | an `async` method's output resolves to `impl ::std::future::Future<Output = out>` in every scope |
| ZngPaths.IdentOrKwRoundTrip | zngur-parser/src/lib.rs:1325-1399 | displaying the token of any word gives the word back |
| ZngPaths.IdentOrKwKeyword | zngur-parser/src/lib.rs:1325-1348 | a word becomes an identifier exactly when it is not one of the eighteen keywords |
| Cfg.GetCfg | zngur-parser/src/cfg.rs:39-42 | `NullCfg` answers `None` for every key; the in-memory provider answers the stored values exactly for stored keys |
| Cfg.GetFeatures | zngur-parser/src/cfg.rs:43-45 | the features are the `feature` entry, or empty when absent or for `NullCfg` |
| Cfg.WithValues | zngur-parser/src/cfg.rs:66-84 | the nested loops compute the `with_values` specification: per pair, append each value not yet stored under its key |
| Cfg.WithValuesKeeps | zngur-parser/src/cfg.rs:66-84 | no key ever stores a duplicate value, and what was stored before stays as a prefix, in first-insertion order |
| Cfg.WithValuesStores | zngur-parser/src/cfg.rs:66-84 | every given value ends up stored under its key, and values already stored stay stored, across calls |
| Cfg.WithValuesKeys | zngur-parser/src/cfg.rs:73-74 | the keys afterwards are the old keys plus the given ones (a key with no values is still created) |
| Cfg.KeyPairsMembers | zngur-parser/src/cfg.rs:137-146 | one key yields `(key, None)` when it has no values, otherwise exactly one `(key, Some v)` per value |
| Cfg.GetCfgPairsMembers | zngur-parser/src/cfg.rs:46-48 | `NullCfg` yields no pairs; the in-memory provider yields exactly the pairs of the previous row, for every key |
| Cfg.ScrutineeOf | zngur-parser/src/cfg.rs:311-330 | `feature` alone is all features, `feature.x` is one feature, `k` is a key and `k.i` a key with an item |
| Cfg.Process | zngur-parser/src/cfg.rs:268-298 | an absent key is Empty, a key with no values is Some, otherwise Values; `key.item` and `feature.x` are Some iff the item is present, else Empty |
| Cfg.ProcessAll | zngur-parser/src/cfg.rs:300-305 | a tuple of keys is processed element-wise |
| Cfg.AnyParsesTo | zngur-parser/src/cfg.rs:472-476 | the number test holds iff some value parses as that `usize` |
| Cfg.ItemMatches | zngur-parser/src/cfg.rs:460-478 | `_` matches everything, `Some` anything but Empty, `None` only Empty; a string matches iff it is among the Values; a number iff a value parses to it |
| Cfg.Matches | zngur-parser/src/cfg.rs:396-457 | the only errors are the three shape mismatches; a single item against a single value reports nothing and decides by the item; a single item against a tuple of other than one value matches, silently, only when it is `_`; a tuple pattern of the wrong length is the arity error |
| Cfg.MatchAllIsAll | zngur-parser/src/cfg.rs:447-449 | `And` matches iff every sub-pattern matches |
| Cfg.MatchAnyIsAny | zngur-parser/src/cfg.rs:450-452 | `Or` matches iff some sub-pattern matches |
| Cfg.MatchTupleIsPointwise | zngur-parser/src/cfg.rs:442-444 | an equal-length tuple pattern matches iff every element pattern matches its scrutinee |
| Cfg.CombinatorsOnSingle | zngur-parser/src/cfg.rs:445-455 | on a single scrutinee `Not` negates, `Grouped` is transparent, `And` needs all and `Or` needs any |
| Cfg.TupleAgainstTuple | zngur-parser/src/cfg.rs:434-446 | tuples of different lengths give an error and no match; equal lengths match element-wise |
| Cfg.SingletonTuples | zngur-parser/src/cfg.rs:399-433 | one-element tuples on either side are unwrapped, `_` matches any tuple, and any other single pattern against a multi-value tuple is an error and no match |
| Cfg.NullCfgAtoms | zngur-parser/src/cfg.rs:39-49 | under `NullCfg` a key or feature matches exactly the `None` and `_` atoms |
| TemplateTypes.MatchNamedListNames | zngur-parser/src/template_types.rs:31-45 | named generics match only pairwise with the same names in the same order |
| TemplateTypes.MatchTypeAgrees | zngur-parser/src/template_types.rs:8-92 | a successful match binds a variable only if it is unbound or bound to the same type; primitives are equal; Ref/Raw agree in mutability; Dyn/Impl in bounds; tuples and lists have equal lengths; an ADT has the same path and same-order named generics |
| TemplateTypes.MatchType | zngur-parser/src/template_types.rs:8-92 | a variable template matches exactly when it is unbound, binding it to the type, or already bound to that very type; a primitive template matches exactly itself and binds nothing |
| TemplateTypes.SubstType | zngur-parser/src/template_types.rs:152-179 | a variable is replaced by its binding and fails exactly when unbound; primitives are kept; any error names a variable the mapping does not bind |
| TemplateTypes.SubstList | zngur-parser/src/template_types.rs:104-109 | on success each element is the substitution of the matching input, in order; a failure is the failure of some element |
| TemplateTypes.SubstNamedList | zngur-parser/src/template_types.rs:111-129 | on success each named generic keeps its name and carries the substitution of its type; a failure is the failure of some element |
| TemplateTypes.MatchTypeSubst | zngur-parser/src/template_types.rs:8-92 | matching only extends the mapping, and substituting the template with any extension of the result gives back the concrete type |
| TemplateTypes.MatchItersSubst | zngur-parser/src/template_types.rs:21-29 | the same law for equal-length lists matched element by element |
| TemplateTypes.MatchNamedListSubst | zngur-parser/src/template_types.rs:31-45 | the same law for named generics |
| TemplateTypes.MatchNamedSubst | zngur-parser/src/template_types.rs:38-42 | the same law for one named generic |
| TemplateTypes.MatchGenericsSubst | zngur-parser/src/template_types.rs:31-45 | the same law for a path with generics |
| TemplateTypes.MatchTraitSubst | zngur-parser/src/template_types.rs:47-69 | the same law for traits |
| TemplateTypes.IsDefined | zngur-parser/src/template_types.rs:181-198 | the loop down the reference chain decides definedness: primitives, unit and Ref/Raw chains to a defined type are defined, anything else must be declared |
| TemplateTypes.SubstituteVars | zngur-parser/src/template_types.rs:99-202 | a success is the substitution and is a defined type; `UnboundVar` exactly when substitution meets an unbound variable (naming it); `UndefinedType` exactly when the substituted type is not defined |
| TemplateTypes.SubstituteVarsOfMatch | zngur-parser/src/template_types.rs:250-270 | substituting the template with the bindings of a match gives back the concrete type whenever that type is defined |
| TemplateTypes.SubstituteAll | zngur-parser/src/template_types.rs:104-109 | on success each element is the substitution of the matching input; a failure is the failure of some element |
| TemplateTypes.SubstituteMethod | zngur-parser/src/template_types.rs:204-243 | succeeds exactly when generics, inputs, output and any deref type substitute; the result keeps name, receiver and use path and carries exactly those substituted types |
| TemplateTypes.SubstituteNamedAll | zngur-parser/src/template_types.rs:288-294 | on success each constructor argument keeps its name and carries its substituted type; a failure is the failure of some argument |
| TemplateTypes.InstantiateMethods | zngur-parser/src/template_types.rs:273-284 | an error exactly when some method's substitution meets an unbound variable; otherwise the result is, in order, every method whose substitution succeeds, substituted, the ones meeting an undefined type dropped |
| TemplateTypes.InstantiateConstructors | zngur-parser/src/template_types.rs:285-305 | every constructor whose arguments substitute appears with those arguments, nothing else appears, and the result is a panic exactly when some constructor meets an unbound variable |
| TemplateTypes.InstantiateFields | zngur-parser/src/template_types.rs:306-322 | every field whose type substitutes appears with its name, offset and substituted type, nothing else appears, and the result is a panic exactly when some field meets an unbound variable |
| TemplateTypes.TryMatchTemplate | zngur-parser/src/template_types.rs:245-329 | no match gives `None`; a match gives the concrete type, which the template substitutes back to, with the template's layout, traits and C++ values and exactly the instantiated methods, constructors and fields; a panic exactly when an instantiation meets an unbound variable |
| TemplateTypes.TemplateRoundTrip | zngur-parser/src/template_types.rs:250-267 | on a match, substituting the template's type with the mapping yields the concrete type |
| TemplateTypes.MergeTemplateMatch | zngur-parser/src/template_types.rs:334-343 | when the concrete type already has a layout the template's layout is discarded before merging, so the concrete layout is kept |
| Conditional.PassBlockSingle | zngur-parser/src/conditional.rs:137-145 | what passing a 0..1 block yields is exactly what the many-item pass yields on the same items: the item, if any, processed with its span kept |
| Conditional.PassBlockMany | zngur-parser/src/conditional.rs:179-191 | every item is processed in order, keeping its span, and the count is preserved |
| Conditional.CardinalitiesAgree | zngur-parser/src/conditional.rs:117-198 | seen through what iterating a block yields, each `SingleItem` operation (`single_to_block`, `empty_block`, `pass_body` of `new_body`) is the `NItems` one; a new body keeps its guarding pattern and `pass_body` passes the body's block |
| Conditional.SelectArm | zngur-parser/src/conditional.rs:77-81 | the selected arm, if any, is an arm of the conditional |
| Conditional.SelectArmFirst | zngur-parser/src/conditional.rs:77-81 | the selected arm is the first one whose guard passes; none is selected exactly when no guard passes |
| Conditional.EvalFirstPassing | zngur-parser/src/conditional.rs:77-81 | evaluation yields the block of the first passing arm, or nothing exactly when no arm passes |
| ZngItems.PartitionItems | zngur-parser/src/lib.rs:1183-1201 | the pushing loop yields exactly the partition of the item list (aliases and processed items each in order, child items flattened in place) |
| ZngItems.PartitionAppend | zngur-parser/src/lib.rs:1183-1201 | partitioning a concatenation is the concatenation of the two partitions, component by component |
| ZngItems.JoinAssoc | zngur-parser/src/lib.rs:1183-1201 | joining partial partitions is associative, so the order in which child lists are extended does not matter |
| ZngItems.PartitionFlattens | zngur-parser/src/lib.rs:1190-1197 | a child-items entry partitions as if its children were written in its place; `Ignore` contributes nothing |
| ZngItems.PartitionProcessed | zngur-parser/src/lib.rs:1190-1193 | a list of processed items only comes out unchanged and in order, with no aliases |
| ZngItems.PartitionSnoc | zngur-parser/src/lib.rs:1189-1199 | one more loop step extends the partition of the prefix by the partition of the next entry |
| ZngItems.ProcessBlockIsItems | zngur-parser/src/lib.rs:1172-1179 | processing a conditional arm's block is processing its items with the spans dropped |
| ZngItems.ProcessItemsAppend | zngur-parser/src/lib.rs:1132-1181 | processing items is item by item: results and reported errors of a concatenation concatenate |
| ZngItems.ProcessItemsCons | zngur-parser/src/lib.rs:1132-1181 | the first item's result and errors come before those of the rest |
| ZngItems.ConditionalInPlace | zngur-parser/src/lib.rs:1172-1179 | a `#match`/`#if` item behaves as the items of its first passing arm written in its place, and as absent when no arm passes; its guards' errors come first |
| ZngItems.ModPartitions | zngur-parser/src/lib.rs:1149-1157 | a `mod` keeps its path and carries exactly the partition of its processed items |
| ZngItems.ProcessItem | zngur-parser/src/lib.rs:1132-1181 | aliases, ignored features and conditionals come out as such and only they do; a `mod` becomes a processed module; only a `mod` or a conditional can report errors, a conditional its guards' errors first, and none of its arms passing gives no items |
| ZngTypeItems.ReadLayoutProps | zngur-parser/src/lib.rs:478-486 | the reports are exactly one unknown-property diagnostic at each key other than `size` and `align`, in property order |
| ZngTypeItems.UnknownKeyDiagsAt | zngur-parser/src/lib.rs:478-486 | each property whose key is neither `size` nor `align` has its unknown-property report, at that key's span, at the position given by the unknown keys before it |
| ZngTypeItems.UnknownKeyDiagsSnoc | zngur-parser/src/lib.rs:478-486 | one more property adds its own reports after those of the earlier ones |
| ZngTypeItems.LayoutPropsLastWins | zngur-parser/src/lib.rs:478-486 | a property is read exactly when its key occurs, and its value is the one of the key's last occurrence |
| ZngTypeItems.TupleInputs | zngur-parser/src/lib.rs:516-520 | tuple constructor arguments are named by their position, counted from the start, each with its converted type |
| ZngTypeItems.ConstructorInputs | zngur-parser/src/lib.rs:512-528 | a unit constructor has no inputs, a tuple one is named `0`, `1`, …, a named one keeps its field names, one input per argument |
| ZngTypeItems.SetLayout | zngur-parser/src/lib.rs:476-505 | the new policy is recorded; the first policy's span is kept and every later one is reported as a duplicate at its own span |
| ZngTypeItems.StepItem | zngur-parser/src/lib.rs:472-579 | one body item only adds diagnostics, methods, constructors, fields and traits, and never moves an already recorded layout span |
| ZngTypeItems.CfgBlockOf | zngur-parser/src/lib.rs:580-585 | a conditional block adds its guards' errors and selects the first passing arm, if any |
| ZngTypeItems.InOrderAppend | zngur-parser/src/lib.rs:468-586 | the document-order walk of a concatenation is the walk of the second part from where the first left off |
| ZngTypeItems.InOrderGrows | zngur-parser/src/lib.rs:468-586 | the walk only ever adds to the collected members and diagnostics and keeps the layout tracked by its span |
| ZngTypeItems.InOrderOneGrows | zngur-parser/src/lib.rs:472-586 | the same for one item, a conditional block included |
| ZngTypeItems.StackWalkPlain | zngur-parser/src/lib.rs:468-471 | without conditional blocks, popping the reversed item list processes the items in document order |
| ZngTypeItems.StackWalkReversesBlocks | zngur-parser/src/lib.rs:580-585 | as written, two methods inside a passing `#if` come out in reverse order, while the document order gives them in order |
| ZngTypeItems.PopPlain | zngur-parser/src/lib.rs:469-472 | popping a plain item and processing it leaves the remaining walk equal to the document-order walk, with a smaller stack |
| ZngTypeItems.PopBlock | zngur-parser/src/lib.rs:580-585 | popping a block and pushing its passing arm's items reversed leaves the remaining walk equal to the document-order walk, with a smaller measure |
| ZngTypeItems.PopItem | zngur-parser/src/lib.rs:469-586 | one turn of the stack loop keeps the document-order result and shrinks the measure |
| ZngTypeItems.WalkTypeItems | zngur-parser/src/lib.rs:468-586 | the stack loop, with blocks pushed reversed, computes exactly the document-order walk of the body |
| ZngTypeItems.FinishType | zngur-parser/src/lib.rs:587-625 | an `Unsized` type gets the by-reference layout and an explicit policy on it is reported; otherwise the layout and diagnostics are those of the walk; every collected piece goes into the type |
| ZngTypeItems.SecondLayoutReported | zngur-parser/src/lib.rs:476-505 | a second layout policy is reported at its own span, and, being recorded before the check, it is the one that stays |
| ZngTypeItems.LayoutNeedsSizeAndAlign | zngur-parser/src/lib.rs:487-498 | a `#layout` without `size`, or with `size` but without `align`, is reported at the type and records no layout |
| ZngTypeItems.CppRefAfterLayout | zngur-parser/src/lib.rs:568-579 | `#cpp_ref` after a layout policy is reported at that policy and dropped; on its own it makes the type zero-sized and records the C++ type |
| ZngBuilder.FirstComponent | zngur-parser/src/lib.rs:433 | the first path component is the longest prefix without `/`, ended by a `/` or by the end of the path |
| ZngBuilder.FirstComponentOfPrefix | zngur-parser/src/lib.rs:433 | a path that starts with `pre/`, for a `pre` without `/`, has `pre` as its first component |
| ZngBuilder.ImportOutcome | zngur-parser/src/lib.rs:429-442 | an import is recorded exactly when it is not absolute and starts with `./` or `../` (or is `.` or `..`); an absolute path is reported twice, any other path once as a module import |
| ZngBuilder.MethodsToZngur | zngur-parser/src/lib.rs:654 | each method of a trait or impl is converted in place, in order |
| ZngBuilder.FnOf | zngur-parser/src/lib.rs:660-671 | a free function lands at the current module's path followed by its name, with no named generics, and keeps the method's generics, inputs and output |
| ZngBuilder.AddItemsAppend | zngur-parser/src/lib.rs:1208-1214 | adding items is a left fold: adding a concatenation adds the second part to the result of the first |
| ZngBuilder.KeepsTrans | zngur-parser/src/lib.rs:412-747 | what adding items keeps is kept across successive steps |
| ZngBuilder.CheckedMergeKeeps | zngur-parser/src/lib.rs:397-409 | a merge that keeps the type list duplicate-free and does not shrink it keeps every earlier error, import and template |
| ZngBuilder.AddExternsKeeps | zngur-parser/src/lib.rs:676-718 | the `extern "C++"` items never withdraw an error, import or template and never list a Rust type twice |
| ZngBuilder.AddTypeKeeps | zngur-parser/src/lib.rs:443-638 | a `type` declaration never withdraws an error, import or template and never lists a Rust type twice |
| ZngBuilder.AddType | zngur-parser/src/lib.rs:443-638 | reports are only appended and a unit type is reported first; imports are untouched; a generic declaration leaves the specification alone and adds a template, any other leaves the templates alone |
| ZngBuilder.AddItemKeeps | zngur-parser/src/lib.rs:412-747 | the same for every kind of processed item, a `mod` included |
| ZngBuilder.AddItemsKeeps | zngur-parser/src/lib.rs:1208-1214 | the same for a whole file's items |
| ZngBuilder.TemplateIsDeferred | zngur-parser/src/lib.rs:628-634 | a generic `type` leaves the specification unchanged and adds one template at its span, for the type converted with its type variables in scope |
| ZngBuilder.ConvertPanicMainOnly | zngur-parser/src/lib.rs:727-745 | `#convert_panic_to_exception` sets the flag in the main file; in an imported file it is reported and nothing else changes |
| ZngBuilder.ImportedKeepsPanicFlag | zngur-parser/src/lib.rs:727-745 | no item of an imported file changes the panic flag |
| ZngBuilder.ImportedItemKeepsPanicFlag | zngur-parser/src/lib.rs:412-747 | no single item of an imported file, a `mod` included, changes the panic flag |
| ZngBuilder.TypeKeepsPanicFlag | zngur-parser/src/lib.rs:443-638 | a `type` declaration leaves the panic flag alone |
| ZngBuilder.TraitKeepsPanicFlag | zngur-parser/src/lib.rs:639-657 | a `trait` declaration leaves the panic flag alone |
| ZngBuilder.FnKeepsPanicFlag | zngur-parser/src/lib.rs:658-675 | a free function leaves the panic flag alone |
| ZngBuilder.ExternsKeepPanicFlag | zngur-parser/src/lib.rs:676-718 | `extern "C++"` items leave the panic flag alone |
| ZngBuilder.ImportsKeepPanicFlag | zngur-parser/src/lib.rs:1031-1060 | resolving imports, found or not, at any nesting, leaves the panic flag as the importing file set it |
| ZngBuilder.NestedKeepsPanicFlag | zngur-parser/src/lib.rs:1001-1061 | parsing an imported file, with what it imports in turn, leaves the panic flag alone |
| ZngBuilder.ApplyOne | zngur-parser/src/lib.rs:1243-1266 | trying one template keeps the type's Rust type and only adds diagnostics |
| ZngBuilder.ApplyTemplates | zngur-parser/src/lib.rs:1242-1268 | applying the templates in turn never changes which Rust type is declared |
| ZngBuilder.TemplatesKeepLayout | zngur-parser/src/lib.rs:1242-1268 | a layout the declaration gives survives every template applied to the type |
| ZngBuilder.AddDrop | zngur-parser/src/lib.rs:1269-1271 | afterwards the type is `Drop`, `Copy` or `Unsized`; only `Drop` is added, and only to a type that is neither `Copy` nor `Unsized` |
| ZngBuilder.FinishOne | zngur-parser/src/lib.rs:1241-1272 | a finished type keeps its Rust type and is `Drop`, `Copy` or `Unsized` |
| ZngBuilder.FinishTypes | zngur-parser/src/lib.rs:1241-1272 | the finishing pass yields one type per declared type |
| ZngBuilder.FinishTypesLast | zngur-parser/src/lib.rs:1241-1272 | the pass over a list is the pass over its front followed by the last type |
| ZngBuilder.FinishTypesDrop | zngur-parser/src/lib.rs:1241-1272 | every finished type is the declared type at the same position, now `Drop`, `Copy` or `Unsized` |
| ZngBuilder.AllFinishedSnoc | zngur-parser/src/lib.rs:1241-1272 | finishing one more type extends the finished prefix |
| ZngBuilder.DefinedTypes | zngur-parser/src/lib.rs:1240 | the defined types are exactly the Rust types of the declared types |
| ZngBuilder.ToZngurDrop | zngur-parser/src/lib.rs:1234-1274 | after finishing, the types are the declared ones in order, each `Drop`, `Copy` or `Unsized`, and nothing else in the specification changes |
| ZngBuilder.Parse | zngur-parser/src/lib.rs:1064-1097 | every type of a successfully built specification is `Drop`, `Copy` or `Unsized` |
| ZngBuilder.NoTemplatesOnlyDrop | zngur-parser/src/lib.rs:1234-1274 | without templates finishing only adds `Drop`, reports nothing and cannot fail |
| ZngBuilder.ApplyStep | zngur-parser/src/lib.rs:1242-1268 | one more template tried extends the application of the shorter template prefix |
| ZngBuilder.ApplyTemplatesTo | zngur-parser/src/lib.rs:1242-1268 | the inner loop, rewriting the type in place, computes the application of all the templates in order |
| ZngBuilder.FinishSpec | zngur-parser/src/lib.rs:1234-1274 | the loop over the declared types, each rewritten in place and given `Drop`, computes exactly the finished specification |
| ZngBuilder.FinishingCurrent | zngur-parser/src/lib.rs:1241 | during the loop, the type at the cursor is still as declared |
| ZngBuilder.FinishingAdvance | zngur-parser/src/lib.rs:1241-1272 | finishing the type at the cursor keeps the loop invariant one position further on |
| ZngBuilder.FinishingFails | zngur-parser/src/lib.rs:1245 | a template that cannot be applied to the type at the cursor makes the whole pass fail with that error |
| ZngBuilder.FinishingDone | zngur-parser/src/lib.rs:1241-1274 | once every type is finished, the loop state is the finished specification and its diagnostics |
| ZngBuilder.FinishStep | zngur-parser/src/lib.rs:1241-1272 | one more declared type finished is the pass over the longer prefix |
| ZngBuilder.ApplyPrefixFails | zngur-parser/src/lib.rs:1245 | once a prefix of the templates fails, every longer prefix fails the same way |
| ZngBuilder.FinishFailsOnward | zngur-parser/src/lib.rs:1245 | once a prefix of the declared types fails to finish, the whole pass fails the same way |
| LegacyParser.BaseScope | zngur-generator/src/parser.rs:35-50 | the older front end's only context is a base path, with no aliases and no type variables; BaseScopeResolves shows that in this scope path resolution is exactly `ParsedPath::to_zngur` |
| LegacyParser.BaseScopeResolves | zngur-generator/src/parser.rs:34-50 | without aliases a path resolves as written when absolute, after the base when relative, and after `crate` for a crate path |
| LegacyParser.TypeOf | zngur-generator/src/parser.rs:215-233 | a named type always becomes an ADT at its path resolved against the base |
| LegacyParser.SignatureOf | zngur-generator/src/parser.rs:645-668 | a first argument `self` makes a by-value receiver and `&self`/`&mut self` a by-reference one with that mutability, and is then dropped from the inputs; otherwise the method is static and keeps all its arguments |
| LegacyParser.ApplyProp | zngur-generator/src/parser.rs:130-144 | a property is accepted exactly when it is `size`, `align`, or `is_copy` with value 0 or 1; anything else panics |
| LegacyParser.ApplyPropsFails | zngur-generator/src/parser.rs:130-144 | a `properties(...)` item panics exactly when one of its pairs is not accepted |
| LegacyParser.ApplyPropSets | zngur-generator/src/parser.rs:131-143 | an accepted property sets its own key and leaves the others |
| LegacyParser.LastPropWins | zngur-generator/src/parser.rs:131-143 | the value of a key is that of its last occurrence, and a key that does not occur keeps its previous value |
| LegacyParser.LastWithSplit | zngur-generator/src/parser.rs:131-143 | the last occurrence of a key is either the final pair or the last occurrence in the pairs before it |
| LegacyParser.TupleInputs | zngur-generator/src/parser.rs:154-158 | a tuple constructor has one input per argument |
| LegacyParser.TupleInputsAt | zngur-generator/src/parser.rs:154-158 | input `i` of a tuple constructor is named `i` and has the `i`-th argument's type |
| LegacyParser.TupleInputNamesDistinct | zngur-generator/src/parser.rs:154-158 | no two inputs of a tuple constructor share a name |
| LegacyParser.TraitsOfSnoc | zngur-generator/src/parser.rs:146-148 | a `wellknown_traits(...)` item extends the trait list by its traits, in order |
| LegacyParser.FoldTypeItemsShape | zngur-generator/src/parser.rs:121-175 | a `type` block panics exactly when one of its properties is unknown; otherwise its traits, constructors and methods are those of its items, each in order |
| LegacyParser.StepTypeItemShape | zngur-generator/src/parser.rs:128-166 | one block item either panics on an unknown property or adds only what its own kind declares |
| LegacyParser.BadPropSnoc | zngur-generator/src/parser.rs:130-144 | a block has an unknown property exactly when its front or its last item has one |
| LegacyParser.DefaultLayoutKept | zngur-generator/src/parser.rs:124-127 | without `properties(...)` items a type keeps size 0, alignment 0 and not `Copy` |
| LegacyParser.MethodsOf | zngur-generator/src/parser.rs:179 | the trait's methods are converted one for one and in order, each against the base path |
| LegacyParser.FnOf | zngur-generator/src/parser.rs:181-194 | a free function's path is the base followed by its name, with no named generics; its generics, inputs and output are the written types resolved against the base, and the receiver is dropped |
| LegacyParser.ItemExtends | zngur-generator/src/parser.rs:113-196 | adding an item never removes or reorders the file's types, traits or functions |
| LegacyParser.ItemsExtend | zngur-generator/src/parser.rs:115-119 | the same for a module's items |
| LegacyParser.ItemsFailStay | zngur-generator/src/parser.rs:115-119 | once an item panics, the whole sequence panics |
| LegacyParser.ItemsAppend | zngur-generator/src/parser.rs:115-119 | adding a concatenation of items adds the first part and then the second |
| LegacyParser.ModNesting | zngur-generator/src/parser.rs:115-119 | `mod a { mod b { … } }` adds exactly what `mod a::b { … }` adds |
| LegacyParser.AbsoluteModIgnoresBase | zngur-generator/src/parser.rs:35-37 | a module with an absolute path adds the same items wherever it is nested |
| LegacyParser.ZngurFile.constructor | zngur-generator/src/parser.rs:318 | a new file holds no types, traits or functions |
| LegacyParser.ZngurFile.AddItem | zngur-generator/src/parser.rs:113-196 | the in-place update succeeds exactly when the item does not panic, and then the file is the specified one |
| LegacyParser.ZngurFile.AddItems | zngur-generator/src/parser.rs:115-119 | the loop over a module's items succeeds exactly when none panics, and then the file is the specified one |
| LegacyParser.BuildType | zngur-generator/src/parser.rs:121-175 | the loop over a block, updating the local lists and layout variables, yields exactly the specified type or the panic |
| LegacyParser.ReadProperties | zngur-generator/src/parser.rs:130-144 | the loop over one `properties(...)` item succeeds exactly when every pair is accepted, and then yields the specified layout |
| LegacyParser.PropsFailStay | zngur-generator/src/parser.rs:130-144 | once a pair panics, the whole property list panics |
| LegacyParser.TypeItemsFailStay | zngur-generator/src/parser.rs:128-166 | once a block item panics, the whole block panics |
| LegacyParser.IntoZngurFile | zngur-generator/src/parser.rs:317-323 | the top-level loop yields a fresh file holding exactly the specified items, or reports the panic |
| LegacyTokens.IdentOrKwRoundTrip | zngur-generator/src/parser.rs:380-426 | displaying the token of any word gives the word back |
| LegacyTokens.IdentOrKwKeyword | zngur-generator/src/parser.rs:380-393 | a word is an identifier exactly when it is not one of the nine keywords |
| LegacyTokens.KeywordsKept | zngur-generator/src/parser.rs:380-393 | every keyword of the older lexer is a keyword of the current one, so an identifier there is an identifier here |
| LegacyTokens.NumberRoundTrip | zngur-generator/src/parser.rs:426 | a number token displays as decimal digits that read back as the same number |
| RustGen.BadsOk | zngur-generator/src/rust.rs:236-252 | every entry of the mangling table has a non-empty text that starts with a table character, and no code letter is a table character |
| RustGen.BadsOrdered | zngur-generator/src/rust.rs:236-252 | priorities never decrease along the table, and no two entries of one priority start with the same character |
| RustGen.BadsSlots | zngur-generator/src/rust.rs:236-252 | the three multi-character entries have priority 1 and the rest priority 2, and each entry sits at the slot its priority and first character give |
| RustGen.TokenFrom | zngur-generator/src/rust.rs:253 | the result is the first entry from `j` on that occurs at the position, and none is found only when none occurs |
| RustGen.TokenAt | zngur-generator/src/rust.rs:253 | the result is the first entry of the table that occurs at the position, and none is found only when none occurs |
| RustGen.ScanFromSpec | zngur-generator/src/rust.rs:253 | the scan stops at the first position, from its start, where some entry occurs |
| RustGen.LeftmostValid | zngur-generator/src/rust.rs:253-254 | what the scan finds is an entry occurring at the position found |
| RustGen.LeftmostIsMinimum | zngur-generator/src/rust.rs:253 | the scan finds nothing exactly when no entry occurs; otherwise it picks the entry whose first occurrence is leftmost, the lower priority winning at one position, which is the minimum `min` takes over `(position, entry)` |
| RustGen.FirstHitIsMinimum | zngur-generator/src/rust.rs:253 | the scan's hit is that entry's first occurrence, and no entry occurs earlier or at the same position with a lower priority |
| RustGen.SamePositionOrdered | zngur-generator/src/rust.rs:236-253 | two entries occurring at one position have different priorities, the earlier one the lower |
| RustGen.RewriteLowersBadCount | zngur-generator/src/rust.rs:254-255 | a rewrite replaces an occurrence by `_` and appends a code letter and digits, so the number of table characters strictly drops and the loop ends |
| RustGen.TailPlain | zngur-generator/src/rust.rs:255 | what a rewrite appends holds no table character |
| RustGen.LeftmostNoneClean | zngur-generator/src/rust.rs:253 | when the scan finds nothing, no table entry occurs anywhere |
| RustGen.MangleFromClean | zngur-generator/src/rust.rs:253-257 | the result of the rewrites contains none of the table's texts |
| RustGen.Mangle | zngur-generator/src/rust.rs:229-258 | the loop over the mutable name computes the specified mangled name: white space (Unicode `White_Space`, as `char::is_whitespace`) removed, each leftmost table entry replaced by `_` and recorded with its letter and UTF-8 byte offset; the result contains none of the table's texts |
| RustGen.NoTokenOnPlainChar | zngur-generator/src/rust.rs:253 | no entry can start on a character that is not a table character |
| RustGen.MangleKeepsZngurPrefix | zngur-generator/src/rust.rs:230-257 | every rewrite lands at or after position 7, so the `_zngur_` prefix survives |
| RustGen.MangleName | zngur-generator/src/rust.rs:229-258 | every mangled name starts with `_zngur_` and contains none of the table's texts |
| RustGen.FilterKeepsAll | zngur-generator/src/rust.rs:233 | a name without white space is taken as written |
| RustGen.InitialPlain | zngur-generator/src/rust.rs:230-235 | before the rewrites, a name without white space becomes `_zngur_`, the base, the name and `_` |
| RustGen.MangleStep | zngur-generator/src/rust.rs:253-256 | one rewrite of the leftmost entry leaves the final result unchanged |
| RustGen.MangleDone | zngur-generator/src/rust.rs:253 | a name without table entries is its own mangling |
| RustGen.MangleDonePlain | zngur-generator/src/rust.rs:253-257 | a name made of plain texts and a decimal number is left alone |
| RustGen.RewriteAfterPlain | zngur-generator/src/rust.rs:253-256 | after a plain prefix, the first entry of a text is rewritten at its position after that prefix |
| RustGen.MangleAtNameIn | zngur-generator/src/rust.rs:251-256 | a name `@rest` with a plain `rest` is rewritten once, at the `@`, into `_`, the rest, `_z` and the position |
| RustGen.MangleAtName | zngur-generator/src/rust.rs:229-258 | `mangle_name("@rest", base)` is `_zngur_` + base + `_` + rest + `_z` followed by the byte offset of the `@` (7 plus the UTF-8 length of the base), as the panic symbols use it |
| RustGen.MangleCrateGreeter | zngur-generator/src/rust.rs:229-258 | `crate::Greeter` with no mangling base mangles to `_zngur_crate_Greeter_s12` |
| RustGen.MangleStrToOwned | zngur-generator/src/rust.rs:229-258 | `<str>::to_owned::<>` with no mangling base mangles to `_zngur__str_to_owned___x7n11m20y21` |
| IntoCpp.SortByName | zngur-generator/src/rust.rs:27 | sorting named generics keeps every entry exactly once |
| IntoCpp.SortByNameSorted | zngur-generator/src/rust.rs:27 | the sorted named generics are ordered by name and are a rearrangement of the given ones |
| IntoCpp.StripPrefix | zngur-generator/src/rust.rs:74-81 | stripping succeeds exactly when the text starts with the prefix, and the prefix followed by the rest is the text |
| IntoCpp.TypesIntoCpp | zngur-generator/src/rust.rs:126-128 | one C++ type per Rust type |
| IntoCpp.TypesIntoCppAt | zngur-generator/src/rust.rs:126-128 | element `i` is the C++ type of the `i`-th Rust type |
| IntoCpp.TrimPlain | zngur-generator/src/cpp.rs:126-128 | a text with no space at either end is its own trim |
| IntoCpp.BareDisplay | zngur-generator/src/rust.rs:74-81 | a C++ type read from such a text prints as that text after `::` |
| IntoCpp.RustNsDisplay | zngur-generator/src/rust.rs:94-109 | a `rust::` path with one plain name prints as `::rust::name` |
| IntoCpp.ScalarDisplay | zngur-generator/src/rust.rs:64-69 | a one-segment name prints as `::name` |
| IntoCpp.NoColonNoSep | zngur-generator/src/cpp.rs:43-45 | a name without `::` splits into itself |
| IntoCpp.PlainIsBare | zngur-generator/src/rust.rs:64-69 | reading a plain one-segment text as a C++ type gives that one segment |
| IntoCpp.PathFromRust | zngur-generator/src/cpp.rs:43-45 | `rust::name` is read as the two segments `rust` and `name` |
| IntoCpp.PrimitiveBuiltinDisplay | zngur-generator/src/rust.rs:63-73 | every builtin name of a primitive has no arguments and prints as `::` followed by a text without spaces at its ends |
| IntoCpp.RawBuiltinDisplay | zngur-generator/src/rust.rs:74-81 | a raw pointer to a builtin is again a builtin printed that way |
| IntoCpp.ForBuiltinDisplay | zngur-generator/src/rust.rs:61-85 | every builtin, at any pointer depth, prints as `::` followed by a text without spaces at its ends, so stripping `::` always succeeds |
| IntoCpp.TypeIntoCpp | zngur-generator/src/rust.rs:60-146 | one C++ template argument per Rust type argument: none for a primitive, one under `rust::` for a box, reference or slice, at most one for a raw pointer, one per tuple element, one per positional and named generic of an ADT, and the trait plus one per bound for `dyn` |
| IntoCpp.PgIntoCpp | zngur-generator/src/rust.rs:19-35 | the C++ path is the Rust path under `rust`, with one argument per positional and named generic |
| IntoCpp.RawPointerToBuiltin | zngur-generator/src/rust.rs:74-81 | a raw pointer to a builtin prints as the pointee's text followed by `*` or ` const*` |
| IntoCpp.RawBuiltinText | zngur-generator/src/rust.rs:74-81 | the same in one statement over the mutability |
| IntoCpp.ScalarNames | zngur-generator/src/rust.rs:65-66 | `uN` becomes `::uintN_t` and `iN` becomes `::intN_t` |
| IntoCpp.FloatNames | zngur-generator/src/rust.rs:67-68 | `f32` becomes `::float_t` and `f64` becomes `::double_t` |
| IntoCpp.NamedScalars | zngur-generator/src/rust.rs:70-93 | `usize` becomes `::size_t`, `bool` `::rust::Bool` and `str` `::rust::Str` |
| IntoCpp.WrapperTypes | zngur-generator/src/rust.rs:94-113 | `Box`, `&`, `&mut` and slices become `rust::Box`, `rust::Ref`, `rust::RefMut` and `rust::Slice` over the inner type |
| IntoCpp.BoxedType | zngur-generator/src/rust.rs:94-97 | a box is `rust::Box` over its content |
| IntoCpp.RefType | zngur-generator/src/rust.rs:98-104 | a reference is `rust::Ref` or `rust::RefMut` by its mutability, over its target |
| IntoCpp.SliceType | zngur-generator/src/rust.rs:105-108 | a slice is `rust::Slice` over its element |
| IntoCpp.RawPointerToOther | zngur-generator/src/rust.rs:109-115 | a raw pointer to a non-builtin is `rust::RawMut` or `rust::Raw` over its target |
| IntoCpp.TupleTypes | zngur-generator/src/rust.rs:117-125 | the empty tuple is `::rust::Unit`; any other tuple is `rust::Tuple` over its element types in order |
| IntoCpp.PgArguments | zngur-generator/src/rust.rs:20-37 | a path with generics is its path under `rust`, the positional arguments in order, then the named ones sorted by name as a rearrangement of the given ones |
| IntoCpp.SortedExpressible | zngur-generator/src/rust.rs:27 | sorting keeps every named generic convertible |
| IntoCpp.DynArguments | zngur-generator/src/rust.rs:130-140 | a `dyn` type is `rust::Dyn` over the trait first and then one `rust::Bound` per marker bound |
| IntoCpp.FnTraitArguments | zngur-generator/src/rust.rs:43-54 | a closure trait `FnName(A, B) -> R` is `rust::FnName<A, B, R>` |
| RustEmit.HexDigit | zngur-generator/src/rust.rs:227 | each digit `hex::encode` writes is a lower-case hexadecimal digit |
| RustEmit.HexValue | zngur-generator/src/rust.rs:227 | a digit's value is below 16 |
| RustEmit.Hex | zngur-generator/src/rust.rs:227 | two lower-case hexadecimal digits per byte |
| RustEmit.Unhex | zngur-generator/src/rust.rs:227 | reading digits back gives one byte per two digits |
| RustEmit.UnhexHex | zngur-generator/src/rust.rs:227 | reading the hexadecimal text back gives the bytes that were encoded |
| RustEmit.HashOfSig | zngur-generator/src/rust.rs:219-228 | the loop builds the text of every type followed by `+`; the hash is ten lower-case hexadecimal digits that decode to the first five bytes of that text's digest |
| RustEmit.SigTextAppend | zngur-generator/src/rust.rs:220-223 | the hashed text of a concatenated signature is the concatenation of the texts |
| RustEmit.ReturnedType | zngur-generator/src/rust.rs:735-742 | an `impl Trait` output is written as `Box<dyn Trait>` with the same bounds; any other output as given |
| RustEmit.FunctionLinkNameShape | zngur-generator/src/rust.rs:719-722 | a function's link name is its mangled name, `_`, exactly ten hash digits, then `_deref` exactly when the receiver is dereferenced |
| RustEmit.TraitMethodLinkNames | zngur-generator/src/rust.rs:311-318 | one link name per trait method |
| RustEmit.ExternMethodNames | zngur-generator/src/rust.rs:607-608 | one imported name per method of an `extern_cpp_impl` block |
| RustEmit.CellDeclaredAppend | zngur-generator/src/rust.rs:835-864 | the panic cell is declared after an emission exactly when it was before or that emission declares it |
| RustEmit.Exports | zngur-generator/src/rust.rs:519-542 | exported functions without a `catch_unwind` wrapper, one per name, in order |
| RustEmit.Imports | zngur-generator/src/rust.rs:667-696 | imported C++ functions, one per name, in order |
| RustEmit.ImportsAppend | zngur-generator/src/rust.rs:600-666 | importing one more name extends the imports by it |
| RustEmit.ThreeExportsKeepWellFormed | zngur-generator/src/rust.rs:893-926 | the three heap shims keep a well-formed file well formed |
| RustEmit.BuilderExportsKeepWellFormed | zngur-generator/src/rust.rs:353-472 | an owned builder export and its `_borrowed` twin keep a well-formed file well formed |
| RustEmit.WellFormedExports | zngur-generator/src/rust.rs:870-882 | in a well-formed file every export's name starts with `_zngur_`, and a wrapped export comes after the panic cell it sets |
| RustEmit.ExportsOkAt | zngur-generator/src/rust.rs:870-882 | the same, read position by position |
| RustEmit.AppendKeepsWellFormed | zngur-generator/src/rust.rs:870-882 | a mangled export, wrapped only once the cell is declared, keeps the file well formed |
| RustEmit.PanicCellKeepsWellFormed | zngur-generator/src/rust.rs:835-868 | declaring the panic cell turns the switch on and keeps the file well formed |
| RustEmit.ExportsKeepWellFormed | zngur-generator/src/rust.rs:519-583 | mangled exports that are never wrapped keep a well-formed file well formed |
| RustEmit.RustFile.constructor | zngur-generator/src/rust.rs:156-199 | a new file holds only the fixed prelude, with panics not converted and the given mangling base |
| RustEmit.RustFile.MangleIn | zngur-generator/src/rust.rs:266-268 | the file mangles with its own base, and every name starts with `_zngur_` |
| RustEmit.RustFile.AddFunction | zngur-generator/src/rust.rs:711-778 | one export under the function's link name, wrapped in `catch_unwind` exactly when panics are converted; its C++ signature has the inputs' C++ types and the boxed output |
| RustEmit.RustFile.AddConstructor | zngur-generator/src/rust.rs:543-583 | two unwrapped exports, the constructor under the mangled name and its check under that name + `_check` |
| RustEmit.RustFile.AddTupleConstructor | zngur-generator/src/rust.rs:519-542 | one export named after the field types joined by `&` |
| RustEmit.RustFile.AddWellknownTrait | zngur-generator/src/rust.rs:779-834 | `Drop` exports `drop_in_place`, `Debug` exports the pretty and plain printers, `Copy` and `Unsized` export nothing |
| RustEmit.RustFile.EnablePanicToException | zngur-generator/src/rust.rs:835-868 | the panic cell is declared with its detect and take symbols, mangled from `@detect_panic` and `@take_panic`, and the switch is on |
| RustEmit.RustFile.DeclarePanicCell | zngur-generator/src/rust.rs:838-866 | writing the cell declares it and turns the switch on, leaving the base unchanged |
| RustEmit.RustFile.AddLayoutPolicyShim | zngur-generator/src/rust.rs:884-929 | a stack layout is passed on and a by-reference one too, both emitting nothing; a heap layout exports size, alloc and free shims mangled from the type |
| RustEmit.RustFile.AddCppValueBridge | zngur-generator/src/rust.rs:697-710 | one export, the accessor named after the type and the field |
| RustEmit.RustFile.AddExternCppFunction | zngur-generator/src/rust.rs:667-696 | the C++ function is imported under the mangled Rust name, and nothing is exported |
| RustEmit.RustFile.AddExternCppImpl | zngur-generator/src/rust.rs:600-666 | one import per method, in order, under the mangled owner + `_extern_method_` + method name |
| RustEmit.RustFile.ImportExternMethod | zngur-generator/src/rust.rs:607-628 | one method's C++ function is imported under its mangled name |
| RustEmit.RustFile.DeclareTraitMethods | zngur-generator/src/rust.rs:310-333 | one import per trait method, named by the mangled trait, the method name and the hashes of its generics and inputs |
| RustEmit.RustFile.DeclareTraitMethod | zngur-generator/src/rust.rs:311-331 | one trait method's C++ function is imported under its link name |
| RustEmit.RustFile.AddBuilderForDynTrait | zngur-generator/src/rust.rs:307-352 | the trait's methods are imported, then the owned builder is exported under the mangled trait name and the borrowed one under that name + `_borrowed`; the definition pairs each method with its link name |
| RustEmit.RustFile.ExportTraitBuilders | zngur-generator/src/rust.rs:353-472 | the owned and borrowed builders are exported under the mangled trait name and its `_borrowed` twin |
| RustEmit.RustFile.AddBuilderForDynFn | zngur-generator/src/rust.rs:473-518 | one export named after the inputs and output joined by `, ` |
| RustEmit.RustFile.AddStaticLayoutAsserts | zngur-generator/src/rust.rs:293-305 | a size and an alignment assertion for the type, in that order |
| RustEmit.RustFile.AddFieldAssertions | zngur-generator/src/rust.rs:584-599 | one offset assertion for the field at its declared offset |
| RustEmit.RustFile.AddStaticIsCopyAssert | zngur-generator/src/rust.rs:283-291 | one assertion that the type is `Copy` |
| CppTypes.PathFrom | zngur-generator/src/cpp.rs:42-47 | a path read from a text always has at least one segment |
| CppTypes.Namespace | zngur-generator/src/cpp.rs:8-10 | the namespace is every segment but the last |
| CppTypes.FromRustPath | zngur-generator/src/rust.rs:29 | the C++ path of a Rust path is the Rust segments under the `rust` namespace |
| CppTypes.PathFromRoundTrip | zngur-generator/src/cpp.rs:8-53 | a path is its namespace followed by its name, and printing a path read from a text gives the trimmed text back after `::` |
| CppTypes.SplitString | zngur-generator/src/cpp.rs:93-123 | the loop with a depth counter and a buffer computes the top-level comma split |
| CppTypes.SplitScanJoins | zngur-generator/src/cpp.rs:93-123 | what has been read is always the finished parts and the current one joined by commas, each shorter than the text, and the current part is empty after a top-level comma |
| CppTypes.JoinExtendLast | zngur-generator/src/cpp.rs:110-116 | appending a character to the current part appends it to the joined text |
| CppTypes.SplitJoinRoundTrip | zngur-generator/src/cpp.rs:93-123 | joining the parts by commas gives the text back, except a final top-level comma, which is dropped |
| CppTypes.SplitPartsShorter | zngur-generator/src/cpp.rs:93-123 | every part is no longer than the text it was read from |
| CppTypes.TrimShorter | zngur-generator/src/cpp.rs:127 | trimming never lengthens a text |
| CppTypes.TypeFromCases | zngur-generator/src/cpp.rs:125-142 | without `<` a text is a bare path; with a `<` but no final `>` it is the panic |
| CppTypes.TypeFrom | zngur-generator/src/cpp.rs:125-142 | a parsed generic type's text ends in `>`; its path is the text before the first `<`, with one argument per top-level part between the brackets |
| CppTypes.TrimIdempotent | zngur-generator/src/cpp.rs:127 | trimming twice is trimming once |
| CppTypes.TrimEndPrefix | zngur-generator/src/cpp.rs:127 | trimming the end keeps a prefix |
| CppTypes.TypeToString | zngur-generator/src/cpp.rs:83-91 | a type without arguments prints as its path; otherwise as its path, `<`, the arguments and `>` |
| CppTypes.TypeFromPlainRoundTrip | zngur-generator/src/cpp.rs:125-131 | reading a plain path text and printing it gives the trimmed text back after `::` |
| CppTypes.HeaderState.constructor | zngur-generator/src/cpp.rs:144-146 | the header text starts empty |
| CppTypes.HeaderState.EmitInNamespace | zngur-generator/src/cpp.rs:12-25 | one `namespace x {` line per namespace segment, in order, then the body, then as many closing braces |
| CppTypes.NamespaceOpensAppend | zngur-generator/src/cpp.rs:17-19 | opening one more namespace appends its line |
| CppTypes.CountCharAppend | zngur-generator/src/cpp.rs:12-25 | counting a character over a concatenation adds the counts |
| CppTypes.NoBracesCount | zngur-generator/src/cpp.rs:12-25 | a text without braces counts none |
| CppTypes.OpenLineBraces | zngur-generator/src/cpp.rs:18 | one `namespace x {` line opens one brace and closes none, for a name without braces |
| CppTypes.NamespaceBalanced | zngur-generator/src/cpp.rs:12-25 | the opening lines open exactly one brace per namespace and the closing lines close exactly as many, so the wrapper is balanced |
| CppTypes.CloseLineBraces | zngur-generator/src/cpp.rs:21-23 | `n` closing lines close `n` braces and open none |
| CppTypes.HandleKeyword | zngur-generator/src/cpp.rs:646-651 | `new` becomes `new_` and every other name is kept |
| CppTypes.HandleKeywordInjective | zngur-generator/src/cpp.rs:646-651 | two different names collide exactly when they are `new` and `new_` |
| CppTypes.LifecycleOf | zngur-generator/src/cpp.rs:354-380 | the drop flag, the destructor and the move operations are emitted exactly for a non-`Copy` type |
| CppTypes.LifecycleFlagOnlyWhenOwned | zngur-generator/src/cpp.rs:474-507 | the data-pointer check and the `assume_init`/`assume_deinit` bodies are empty exactly for a `Copy` type, and otherwise set and clear the drop flag |
| GenRender.Keys | zngur-generator/src/lib.rs:50-54 | the keys of a list of map entries, one per entry and in order |
| GenRender.KeysAppend | zngur-generator/src/lib.rs:50-54 | the keys of two lists of entries put together are the two key lists put together |
| GenRender.KeysPrefix | zngur-generator/src/lib.rs:50-54 | the keys of the first `n` entries are the first `n` keys |
| GenRender.CfgDefine | zngur-generator/src/lib.rs:59-80 | every cfg macro is named `ZNGUR_CFG_…` |
| GenRender.CfgDefines | zngur-generator/src/lib.rs:59-80 | one macro per cfg pair, in order |
| GenRender.CfgDefineShape | zngur-generator/src/lib.rs:62-78 | a key with no value or a blank one gives the upper-cased key alone; any other value adds `_` and one upper-case letter, digit or `_` per character of the value |
| GenRender.CfgDefineKeepsMacroValue | zngur-generator/src/lib.rs:70-76 | a value already made of upper-case letters, digits and `_` is kept as it is |
| GenRender.RealInputsOfMethod | zngur-generator/src/lib.rs:300-311 | a method's inputs are its declared inputs, preceded by `&self`/`&mut self` as a reference to the type or by `self` as the type, and by nothing for a static method |
| GenRender.RealInputsExpressible | zngur-generator/src/lib.rs:300-311 | adding the receiver keeps every input expressible in C++ |
| GenRender.ReceiverIntoCpp | zngur-generator/src/lib.rs:280-290 | C++ passes `self` as `rust::Ref<T>`/`rust::RefMut<T>` or as `T`, and the remaining inputs are the converted declared inputs |
| GenRender.MethodMethods | zngur-generator/src/lib.rs:170-194 | one C++ member function per method |
| GenRender.MethodItems | zngur-generator/src/lib.rs:176-187 | each method exports exactly its own link name, wrapped for panics iff panics become exceptions |
| GenRender.NamedIntoCpp | zngur-generator/src/lib.rs:112 | the C++ input types of a constructor are its fields' types converted one by one |
| GenRender.CtorLinks | zngur-generator/src/lib.rs:103-137 | one link name per constructor |
| GenRender.FieldDatas | zngur-generator/src/lib.rs:139-152 | one field entry per declared field |
| GenRender.WellknownDatas | zngur-generator/src/lib.rs:164-169 | one well-known trait entry per declared trait |
| GenRender.NewTraitDefsShape | zngur-generator/src/lib.rs:208-230 | a closure trait is registered exactly when a `Box<dyn Fn…>` names a trait not registered yet, and then once, under that trait |
| GenRender.FromTraitShape | zngur-generator/src/lib.rs:208-239 | `from_trait` is set exactly for `Box<dyn Trait>` and `from_trait_ref` exactly for `dyn Trait`, each to that trait |
| GenRender.RenderConstructors | zngur-generator/src/lib.rs:103-137 | the constructor loop yields the variant member functions and the struct constructors, and adds a constructor and a `_check` export per constructor |
| GenRender.RenderConstructorPass | zngur-generator/src/lib.rs:103-137 | one pass extends the member functions, constructors and link names by those of the next constructor |
| GenRender.CtorItemsStep | zngur-generator/src/lib.rs:103-137 | the exports of one more constructor extend the export list by its own pair |
| GenRender.RenderConstructor | zngur-generator/src/lib.rs:104-136 | a variant gives a static member function named after it and a `matches_` test; a struct constructor gives a C++ constructor; both export the mangled path and its `_check` |
| GenRender.CtorsStep | zngur-generator/src/lib.rs:103-137 | one more constructor extends each of the three results by its own part |
| GenRender.RenderFields | zngur-generator/src/lib.rs:139-152 | every field gets its offset entry and an offset assertion, in order |
| GenRender.RenderWellknown | zngur-generator/src/lib.rs:164-169 | every well-known trait gets its data, and the Rust file gets the glue of exactly that data |
| GenRender.RenderWellknownTrait | zngur-generator/src/lib.rs:164-169 | one pass of the well-known trait loop |
| GenRender.WellknownAdded | zngur-generator/src/lib.rs:166-168 | what adding a well-known trait writes is the glue of the data it returns |
| GenRender.WellknownStep | zngur-generator/src/lib.rs:164-169 | one more trait extends the data and the glue by its own part |
| GenRender.MethodsStep | zngur-generator/src/lib.rs:170-194 | one more method extends the member functions by its own |
| GenRender.RenderMethods | zngur-generator/src/lib.rs:170-194 | the method loop yields one member function per method, each exported once |
| GenRender.RenderMethodPass | zngur-generator/src/lib.rs:170-194 | one pass of the method loop |
| GenRender.MethodItemsStep | zngur-generator/src/lib.rs:176-187 | one more method extends the export list by its own export |
| GenRender.RenderMethod | zngur-generator/src/lib.rs:170-194 | a method is exported through `add_function` under `<T>::name::<generics>` (or the deref target's path), named with `cpp_handle_keyword` and keeping its receiver |
| GenRender.RenderLayoutAsserts | zngur-generator/src/lib.rs:83-98 | a stack layout adds its size and alignment assertions, and a `Copy` type its copy assertion |
| GenRender.RenderTuple | zngur-generator/src/lib.rs:153-163 | a non-empty tuple gets one constructor from its fields; other types none |
| GenRender.RenderLayoutShim | zngur-generator/src/lib.rs:197 | the header's layout is the one the shim returns, with the heap shims it needs |
| GenRender.RenderValue | zngur-generator/src/lib.rs:202-205 | a C++ value field is renamed to its bridge |
| GenRender.RenderFromTrait | zngur-generator/src/lib.rs:208-234 | the closure trait registration of a `Box<dyn Fn…>` and its builder |
| GenRender.RenderType | zngur-generator/src/lib.rs:81-240 | one type's header definition and everything it adds to the Rust file, in the order `render` writes them |
| Generator.TraitMethodLinks | zngur-generator/src/lib.rs:50-54 | one link name per trait method |
| Generator.TraitDefs | zngur-generator/src/lib.rs:50-54 | one header trait entry per trait of the specification |
| Generator.TypesRendered | zngur-generator/src/lib.rs:81-241 | the type loop writes one header definition per type |
| Generator.FnDefs | zngur-generator/src/lib.rs:242-254 | one header function per Rust function |
| Generator.ExternFnDefs | zngur-generator/src/lib.rs:255-266 | one header declaration per C++ function Rust calls |
| Generator.ExternImplDefs | zngur-generator/src/lib.rs:267-294 | one header impl per C++ impl Rust calls |
| Generator.AllTypes | zngur-generator/src/lib.rs:35-45 | `render` writes the user's types and then the unit type |
| Generator.UnitRenderable | zngur-generator/src/lib.rs:35-45 | the unit type `render` adds is one the type loop can write |
| Generator.AllTypesRenderable | zngur-generator/src/lib.rs:35-45 | adding the unit type keeps every type writable |
| Generator.RenderTraits | zngur-generator/src/lib.rs:50-54 | the trait map holds each trait's builders under its key, and the Rust file gets each trait's imports and builders |
| Generator.RenderTraitPass | zngur-generator/src/lib.rs:50-54 | one pass of the trait loop |
| Generator.TraitsStep | zngur-generator/src/lib.rs:50-54 | one more trait extends the trait table and the Rust file by its own part |
| Generator.RenderTrait | zngur-generator/src/lib.rs:53 | `add_builder_for_dyn_trait` for one trait gives its definition and writes its method imports and its two builders |
| Generator.RenderTypes | zngur-generator/src/lib.rs:81-241 | the type loop yields one definition per type and the trait table grown by the closure traits it met |
| Generator.RenderTypePass | zngur-generator/src/lib.rs:81-241 | one pass of the type loop |
| Generator.TypesRenderedSnoc | zngur-generator/src/lib.rs:81-241 | one more type adds its definition, its closure trait if new, and its Rust glue |
| Generator.RenderFns | zngur-generator/src/lib.rs:242-254 | the function loop yields one definition per function, each exported once |
| Generator.RenderFn | zngur-generator/src/lib.rs:243-253 | a Rust function is exported under its path with no deref, and declared in C++ under the same path in the `rust` namespace |
| Generator.FnsSnoc | zngur-generator/src/lib.rs:242-254 | one more function extends the definitions by its own |
| Generator.FnItemsSnoc | zngur-generator/src/lib.rs:242-254 | one more definition extends the exports by its own |
| Generator.RenderExternFns | zngur-generator/src/lib.rs:255-266 | the loop over C++ functions yields one declaration each and one import each |
| Generator.RenderExternFn | zngur-generator/src/lib.rs:256-265 | a C++ function is imported under its mangled name and keeps its own name in the header |
| Generator.ExternFnsSnoc | zngur-generator/src/lib.rs:255-266 | one more C++ function extends the declarations by its own |
| Generator.ExternFnItemsSnoc | zngur-generator/src/lib.rs:255-266 | one more declaration extends the imports by its own |
| Generator.RenderExternImpls | zngur-generator/src/lib.rs:267-294 | the loop over C++ impls yields one impl definition each, and imports each of its methods |
| Generator.RenderExternImpl | zngur-generator/src/lib.rs:268-293 | one C++ impl: its methods are imported under their mangled names, and the header sees each with its receiver among the inputs |
| Generator.ExternImplsSnoc | zngur-generator/src/lib.rs:267-294 | one more impl extends the definitions and the imports by its own |
| Generator.RenderPanic | zngur-generator/src/lib.rs:55-57 | the panic symbols exist exactly when the specification converts panics to exceptions |
| Generator.Render | zngur-generator/src/lib.rs:32-297 | `render` produces exactly the header contents and Rust declarations the specification determines |
| Generator.RenderedParts | zngur-generator/src/lib.rs:46-296 | the parts the loops produce, in the order `render` runs them, make up the whole result |
| Generator.TypesRenderedDefs | zngur-generator/src/lib.rs:81-241 | the k-th header definition is the definition of the k-th type |
| Generator.TraitTableStep | zngur-generator/src/lib.rs:208-230 | one type keeps the trait table an extension of the start, keeps every key, and adds the closure trait it boxes |
| Generator.TraitsSnoc | zngur-generator/src/lib.rs:208-230 | the trait table after one more type is the previous one plus that type's new closure trait |
| Generator.FnTraitsInSnoc | zngur-generator/src/lib.rs:208-230 | every boxed closure trait met so far stays in the table |
| Generator.TypesRenderedTraits | zngur-generator/src/lib.rs:81-241 | the type loop keeps the starting trait table as a prefix, only appends closure traits under new keys, and registers every closure trait a `Box<dyn Fn…>` names |
| Generator.RenderedTypeDefs | zngur-generator/src/lib.rs:35-241 | the header defines every type of the specification in order and then the unit type: zero-sized, `Copy` and with nothing else |
| Generator.UnitTypeDef | zngur-generator/src/lib.rs:35-45 | the unit type's definition is zero-sized with alignment 1, has one well-known trait and nothing else |
| Generator.RenderedTraitDefs | zngur-generator/src/lib.rs:50-54 | the header's trait table starts with the specification's traits in order, adds only closure traits, and has no key twice when the specification has none |
| Generator.RenderedFnTraits | zngur-generator/src/lib.rs:208-230 | every closure trait a type of the specification boxes has its builder in the header's trait table |
| Generator.RenderedTraitTable | zngur-generator/src/lib.rs:50-241 | the header's trait table is what the type loop leaves of the traits' table |
| Generator.TraitDefsKeys | zngur-generator/src/lib.rs:50-54 | the trait table keeps the specification's keys in order |
| Generator.FnDefsShape | zngur-generator/src/lib.rs:242-254 | the k-th function definition is named by the k-th function's path and takes its parameter types |
| Generator.FnItemsShape | zngur-generator/src/lib.rs:242-254 | one export per function definition, in order, under its link name |
| BuiltinTypes.Scalars | zngur-generator/src/template.rs:16 | each width gives two integer names |
| BuiltinTypes.Refs | zngur-generator/src/template.rs:17-24 | each width gives four reference names |
| BuiltinTypes.FlatMapAt | zngur-generator/src/template.rs:14-24 | when every width gives `n` names, the names of the k-th width sit at `n * k`, in order |
| BuiltinTypes.BuiltinsShape | zngur-generator/src/template.rs:13-32 | the list has 28 names: `int{x}_t`/`uint{x}_t` for 8, 16, 32 and 64, then `Ref`/`RefMut` of each, then the opaque object, `double_t`, `float_t` and `size_t` |
| BuiltinTypes.ScalarSlots | zngur-generator/src/template.rs:16 | each integer name is told apart from the others by its first characters |
| BuiltinTypes.RefSlots | zngur-generator/src/template.rs:17-24 | each reference name is told apart from the others by its first characters |
| BuiltinTypes.OtherSlots | zngur-generator/src/template.rs:25-30 | the four other names are told apart from each other and from the rest |
| BuiltinTypes.BuiltinSlots | zngur-generator/src/template.rs:13-32 | every name sits at the position its own characters determine |
| BuiltinTypes.RefSlotAt | zngur-generator/src/template.rs:17-24 | the same, for a position among the references |
| BuiltinTypes.BuiltinsDistinct | zngur-generator/src/template.rs:13-32 | no name is listed twice |
| LayoutExtractor.FromLe | zngur-auto-layout/src/extractor.rs:468-469 | a little-endian word of `k` bytes is below `256^k` |
| LayoutExtractor.FromBe | zngur-auto-layout/src/extractor.rs:473-474 | a big-endian word of `k` bytes is below `256^k` |
| LayoutExtractor.ToLe | zngur-auto-layout/src/extractor.rs:468-479 | writing a word little-endian gives exactly `k` bytes |
| LayoutExtractor.ToBe | zngur-auto-layout/src/extractor.rs:473-484 | writing a word big-endian gives exactly `k` bytes |
| LayoutExtractor.LeRoundTrip | zngur-auto-layout/src/extractor.rs:468-479 | reading back the little-endian bytes of a number that fits gives the number |
| LayoutExtractor.LeBytesRoundTrip | zngur-auto-layout/src/extractor.rs:468-479 | writing back a little-endian reading gives the bytes |
| LayoutExtractor.BeRoundTrip | zngur-auto-layout/src/extractor.rs:473-484 | reading back the big-endian bytes of a number that fits gives the number |
| LayoutExtractor.BeBytesRoundTrip | zngur-auto-layout/src/extractor.rs:473-484 | writing back a big-endian reading gives the bytes |
| LayoutExtractor.Decode | zngur-auto-layout/src/extractor.rs:466-486 | a word read in either byte order fits its width |
| LayoutExtractor.Encode | zngur-auto-layout/src/extractor.rs:466-486 | a word written in either byte order has its width |
| LayoutExtractor.DecodeEncode | zngur-auto-layout/src/extractor.rs:466-486 | reading a written word gives the number back, in either byte order |
| LayoutExtractor.ParseLayoutFromBytes | zngur-auto-layout/src/extractor.rs:452-496 | fewer than two words of data is "too short", and only then; enough data with a pointer size other than 4 or 8 is "unsupported", and only then; otherwise size and alignment fit a pointer |
| LayoutExtractor.LayoutRoundTrip | zngur-auto-layout/src/extractor.rs:452-496 | the bytes of a `[size, align]` array read back as that layout, whatever follows them |
| LayoutExtractor.TypeStrings | zngur-auto-layout/src/extractor.rs:566 | one spelling per tuple element or generic argument |
| LayoutExtractor.NamedStrings | zngur-auto-layout/src/extractor.rs:580-585 | one `name = type` spelling per named generic |
| LayoutExtractor.StructuralPrintable | zngur-auto-layout/src/extractor.rs:524-590 | every type built from primitives by references, pointers, boxes, slices and tuples has a spelling |
| LayoutExtractor.StructuralMatchesDisplay | zngur-auto-layout/src/extractor.rs:524-570 | on those types the probe's spelling is the type's display |
| LayoutExtractor.StructuralListsMatch | zngur-auto-layout/src/extractor.rs:561-569 | the same for a list of them |
| LayoutExtractor.PathRelativeToDisplay | zngur-auto-layout/src/extractor.rs:571 | the probe spells a path relative (`a::b`) where the display writes it absolute (`::a::b`) |
| LayoutExtractor.AdtString | zngur-auto-layout/src/extractor.rs:570-588 | a path without generics is the path alone; with generics it is the path, `<`, the arguments and `>`, without a turbofish |
| LayoutExtractor.IsMachoTarget | zngur-auto-layout/src/extractor.rs:312-322 | an explicit target is Mach-O when it names Apple, Darwin or iOS; without one the host decides |
| LayoutExtractor.OwnSectionFound | zngur-auto-layout/src/extractor.rs:276-284 | the section each static is put in is found again under its own index, on either object format |
| LayoutExtractor.SectionOfTenMatchesOne | zngur-auto-layout/src/extractor.rs:422-425 | as written, the section `.zngur_10` passes the test for index 1 |
| LayoutExtractor.DigitTails | zngur-auto-layout/src/extractor.rs:422-425 | two digit runs that end the same text, each after a non-digit, are the same |
| LayoutExtractor.ExactMatchIsOwnIndex | zngur-auto-layout/src/extractor.rs:422-425 | with the test that requires the name to end in the index, a static's section passes only for its own index |
| LayoutExtractor.SuffixIndex | zngur-auto-layout/src/extractor.rs:422-425 | a name ending in a non-digit and an index, ending in another such name, has the same index |
| LayoutExtractor.FindLayoutSection | zngur-auto-layout/src/extractor.rs:407-446 | the data of the first section whose name passes the test; "not found" exactly when none passes |
| LayoutExtractor.GenerateExtractionCode | zngur-auto-layout/src/extractor.rs:264-309 | the probe is the header, one `[size, align]` static per type in order in its own section, and an empty `main` |
| LayoutExtractor.StaticsStep | zngur-auto-layout/src/extractor.rs:271-303 | one loop pass appends exactly the next type's static |
| LayoutExtractor.StaticsExtend | zngur-auto-layout/src/extractor.rs:271-303 | adding types leaves the earlier statics untouched |
| LayoutExtractor.CollectCovers | zngur-auto-layout/src/extractor.rs:386-399 | when every layout is read, every listed type is a key and every key a listed type |
| LayoutExtractor.ExtractCoversTypes | zngur-auto-layout/src/extractor.rs:371-402 | each type gets a layout, and the map has no other key |
| LayoutExtractor.KeysSnoc | zngur-auto-layout/src/extractor.rs:396 | inserting one more type keeps the keys exactly the listed types |
| LayoutExtractor.TrimChar | zngur-auto-layout/src/extractor.rs:249 | trimming a character never lengthens a text and leaves it neither at the start nor at the end |
| LayoutExtractor.CrateName | zngur-auto-layout/src/extractor.rs:239-259 | the crate name is the value of the first `name … = …` line, and none only when there is no such line |
| LayoutExtractor.LibName | zngur-auto-layout/src/extractor.rs:140 | the library name is the crate name with every `-` made `_`, and nothing else changed |
| LayoutExtractor.OwnLibFound | zngur-auto-layout/src/extractor.rs:210-218 | the file cargo writes for the crate passes the test |
| LayoutExtractor.OtherCrateLibMatches | zngur-auto-layout/src/extractor.rs:212-213 | as written, `libfoo_bar-1.rlib` passes the test for crate `foo` |
| LayoutExtractor.ExactLibIsOwnCrate | zngur-auto-layout/src/extractor.rs:212-213 | with the test that requires `-` or the extension after the name, a file passes for one library name only |
| LayoutExtractor.FollowedBy | zngur-auto-layout/src/extractor.rs:212-213 | a file passing the corrected test has `-` or `.` right after the library name |
| LayoutCache.EnvVar | zngur-auto-layout/src/cache.rs:93-96 | a variable's value is the first one the environment gives it, and the empty text when it has none |
| LayoutCache.CommitHash | zngur-auto-layout/src/cache.rs:85-88 | the commit hash is the first whitespace-separated word of 41 hexadecimal digits, and there is none only when no word is one |
| LayoutCache.CommitHashOfWords | zngur-auto-layout/src/cache.rs:85-88 | in a version text of single-space-separated words, the hash is the first word that reads as one |
| LayoutCache.ShortWordsHaveNoHash | zngur-auto-layout/src/cache.rs:85-88 | a version text whose words are all shorter than 41 characters has no commit hash |
| LayoutCache.DetectTriple | zngur-auto-layout/src/cache.rs:98-108 | the detected target is `host` exactly when the architecture or the system is unknown |
| LayoutCache.JoinedNotHost | zngur-auto-layout/src/cache.rs:98-105 | a triple put together from parts is never `host` |
| LayoutCache.TargetTriple | zngur-auto-layout/src/cache.rs:91-109 | an explicit target is used as it is; otherwise the target is detected from the `CARGO_CFG_TARGET_*` variables |
| LayoutCache.TripleParts | zngur-auto-layout/src/cache.rs:98-105 | splitting a detected triple at `-` gives back the architecture, the vendor or `unknown`, the system and the environment when there is one |
| LayoutCache.FeatureNames | zngur-auto-layout/src/cache.rs:112-120 | the features are exactly the lower-cased rests of the `CARGO_FEATURE_` variables |
| LayoutCache.Features | zngur-auto-layout/src/cache.rs:112-121 | the feature list is sorted and a permutation of the enabled features |
| LayoutCache.LexAntisymmetric | zngur-auto-layout/src/cache.rs:121 | two texts each ordered before the other are equal |
| LayoutCache.LexTransitive | zngur-auto-layout/src/cache.rs:121 | the text order is transitive |
| LayoutCache.SortedHeadLeast | zngur-auto-layout/src/cache.rs:121 | the head of a sorted list is below every element |
| LayoutCache.SortedUnique | zngur-auto-layout/src/cache.rs:121 | two sorted lists holding the same texts are the same list |
| LayoutCache.TailMultiset | zngur-auto-layout/src/cache.rs:121 | two lists with the same elements and the same head have the same rest |
| LayoutCache.FeaturesIgnoreOrder | zngur-auto-layout/src/cache.rs:15-19 | environments enabling the same features in any order give the same feature list, so the comparison in validity does not depend on order |
| LayoutCache.BuildMetadata | zngur-auto-layout/src/cache.rs:81-133 | the metadata holds the version text, its commit hash, the target, the sorted features and the time, with an empty source hash; a failure to get the version is the error |
| LayoutCache.IsCacheValid | zngur-auto-layout/src/cache.rs:199-226 | a cache is valid exactly when compiler version, target, features and source hash all match; hashing is tried only when the first three match, and its failure is then the error |
| LayoutCache.SavedMetadataValid | zngur-auto-layout/src/cache.rs:234-242 | the metadata `save` writes is valid for the same build and sources whatever the time, and stale once the compiler changes |
| LayoutCache.ValidityIgnoresCommitAndTime | zngur-auto-layout/src/cache.rs:199-226 | validity does not depend on the recorded commit hash or time |
| LayoutCache.CacheFilePath | zngur-auto-layout/src/cache.rs:64-71 | the file is `zngur-layout-cache.json` in the given directory, else in `OUT_DIR`, else in `zngur-cache` under the temporary directory |
| LayoutCache.SerializeLayouts | zngur-auto-layout/src/cache.rs:245-256 | the stored keys are exactly the displays of the types, and each entry is the size and alignment of a type with that display |
| LayoutCache.DisplaysAdd | zngur-auto-layout/src/cache.rs:245-256 | one more type adds its display to the keys |
| LayoutCache.StoredEntryIsOwn | zngur-auto-layout/src/cache.rs:245-256 | when no two types share a display, each type's entry is its own layout |
| LayoutCache.Cache.constructor | zngur-auto-layout/src/cache.rs:75-78 | a cache holds its file's place, the current metadata and what is on disk |
| LayoutCache.Cache.New | zngur-auto-layout/src/cache.rs:63-79 | `new` fails exactly when creating the directory fails (that error first) or the metadata cannot be built; otherwise the cache has the chosen file place and the current metadata, with sorted features |
| LayoutCache.Cache.Load | zngur-auto-layout/src/cache.rs:168-197 | `load` never returns layouts: a missing file gives nothing, an unreadable one an error, a corrupt or stale one is deleted, a valid one kept, and a hashing failure is the error with the file kept |
| LayoutCache.Cache.Save | zngur-auto-layout/src/cache.rs:234-267 | `save` writes the current metadata with the fresh source hash and the layouts keyed by display, which a later validity check accepts; a hashing failure writes nothing, and a failed write is the error with the old file kept |
| CfgExtractor.Resume | zngur-cli/src/cfg_extractor.rs:200-204 | after an escaped ordinary character the scan returns to the state the escape began in; the corrected scan goes on into a word when that state was between words |
| CfgExtractor.Finish | zngur-cli/src/cfg_extractor.rs:156-168 | at the end of input nothing is added between words; otherwise exactly one last word is added after the finished ones |
| CfgExtractor.ScanRustflags | zngur-cli/src/cfg_extractor.rs:137-225 | the character loop computes the words the scanner's step function defines |
| CfgExtractor.ParseRustflags | zngur-cli/src/cfg_extractor.rs:137-225 | input made only of separators has no flags, and a single plain word is the one flag |
| CfgExtractor.RunAppend | zngur-cli/src/cfg_extractor.rs:155-222 | scanning two pieces is scanning the first and then the second |
| CfgExtractor.RunSnoc | zngur-cli/src/cfg_extractor.rs:155-222 | scanning one more character is one more step |
| CfgExtractor.RunOne | zngur-cli/src/cfg_extractor.rs:155-222 | scanning one character is one step |
| CfgExtractor.SeparatorsSkipped | zngur-cli/src/cfg_extractor.rs:175 | separators between words change nothing |
| CfgExtractor.BlankHasNoFlags | zngur-cli/src/cfg_extractor.rs:158-175 | input made only of separators, the empty input included, has no words |
| CfgExtractor.PlainRun | zngur-cli/src/cfg_extractor.rs:176-192 | plain characters read between words or inside a word extend the word |
| CfgExtractor.WordAtEnd | zngur-cli/src/cfg_extractor.rs:159-161 | a plain word at the end of input is flushed as the last word |
| CfgExtractor.WordThenSpace | zngur-cli/src/cfg_extractor.rs:185-188 | a plain word followed by a space is finished and the scan is back between words |
| CfgExtractor.JoinedWords | zngur-cli/src/cfg_extractor.rs:137-225 | plain words joined by spaces are read as those words, after the ones already finished |
| CfgExtractor.FlagsRoundTrip | zngur-cli/src/cfg_extractor.rs:137-225 | plain words joined by spaces split back into the same words |
| CfgExtractor.QuotedRun | zngur-cli/src/cfg_extractor.rs:206-220 | text without the closing quote or a backslash is added to the word inside quotes |
| CfgExtractor.SingleQuoted | zngur-cli/src/cfg_extractor.rs:172-212 | single quotes keep everything between them and are dropped |
| CfgExtractor.DoubleQuoted | zngur-cli/src/cfg_extractor.rs:173-220 | double quotes keep text without quotes or backslashes and are dropped |
| CfgExtractor.DoubleQuoteEscape | zngur-cli/src/cfg_extractor.rs:194-204 | inside double quotes a backslash escapes only `"` and `\`, is dropped with a following newline, and is kept before anything else |
| CfgExtractor.LineContinuation | zngur-cli/src/cfg_extractor.rs:199 | a backslash before a newline is dropped with it, between words, inside a word and inside double quotes |
| CfgExtractor.TrailingBackslash | zngur-cli/src/cfg_extractor.rs:163-166 | a backslash at the end of input is kept at the end of the last word |
| CfgExtractor.EscapeBetweenWordsLost | zngur-cli/src/cfg_extractor.rs:174-204 | as written, `\a` alone gives no word, and `\a b` gives the single word `\ab` |
| CfgExtractor.CorrectedWordStep | zngur-cli/src/cfg_extractor.rs:176-204 | in the corrected scan one more plain character or backslash extends the word being read |
| CfgExtractor.CorrectedWordRun | zngur-cli/src/cfg_extractor.rs:176-204 | the corrected scan reads a word without separators or quotes whole |
| CfgExtractor.CorrectedKeepsEscapedWord | zngur-cli/src/cfg_extractor.rs:137-225 | the corrected scan reads any word without separators or quotes as itself, one beginning with a backslash included |
| CfgExtractor.CargoOptions | zngur-cli/src/cfg_extractor.rs:70-88 | `cargo rustc` comes first, `--all-features` is passed when asked, and `--no-default-features` comes last when asked |
| CfgExtractor.CommandShape | zngur-cli/src/cfg_extractor.rs:65-103 | with cargo the flags follow the cargo options, the target and `--`; with rustc only the target precedes them; `--print cfg` ends both |
| CfgExtractor.KeyValue | zngur-cli/src/cfg_extractor.rs:119 | a trimmed line with `=` splits at its first `=`; a line without one is the key with an empty value |
| CfgExtractor.StripQuotes | zngur-cli/src/cfg_extractor.rs:120-124 | a value of at least two characters between double quotes loses them; any other value is kept |
| CfgExtractor.StripQuotesOfQuoted | zngur-cli/src/cfg_extractor.rs:120-124 | quoting a value and stripping the quotes gives it back |
| CfgExtractor.CfgValuesInOrder | zngur-cli/src/cfg_extractor.rs:114-127 | a key is in the map exactly when some non-blank line names it, and it holds that key's values in line order |
| CfgExtractor.CfgFromOutput | zngur-cli/src/cfg_extractor.rs:114-129 | the loop over the output lines builds exactly that map |
| CliMain.Parent | zngur-cli/src/main.rs:74 | every path but the empty one has a parent, and the parent followed by the last component is the path |
| CliMain.CliDefaults | zngur-cli/src/main.rs:74-88 | without options the outputs are `generated.cpp`, `generated.h` and `src/generated.rs` beside the `.zng` file, the header is included as `generated.h`, and namespace and mangling base follow the options |
| CliMain.CliHeaderGiven | zngur-cli/src/main.rs:76 | a given header path is used as given, and `generate` can then fail only when it names no file |
| CliMain.NameEnd | zngur-cli/src/main.rs:115-120 | the name ends at the first piece after the first that reads as a `u32`, or at the end, and no piece before it reads as one |
| CliMain.ReadName | zngur-cli/src/main.rs:113-120 | the `while let` loop joins the pieces of the name with single spaces up to that point |
| CliMain.LineRoundTrip | zngur-cli/src/main.rs:108-129 | reading the line rustc prints for a type gives back its name, size and alignment, for a name without spaces and a size below 2^32 |
| CliMain.NameOf | zngur-cli/src/main.rs:124 | the name slice drops the token's first byte and last two bytes, counted in UTF-8; it panics exactly when the token has fewer than three bytes or either cut falls inside a character |
| CliMain.TokenLineEntry | zngur-cli/src/main.rs:108-129 | a type-size line whose name token has no spaces reads as that token's name slice with its size and alignment, and panics exactly when the slice does |
| CliMain.WideFirstCharPanics | zngur-cli/src/main.rs:124 | the name token `éab:` panics, because byte 1 falls inside the `é` |
| CliMain.NameSliceIsByByte | zngur-cli/src/main.rs:124 | the three-byte name token `aé` reads as the empty name |
| CliMain.StrToTypesizes | zngur-cli/src/main.rs:108-129 | reading rustc's type-size output panics exactly when some line mentioning `type:` does not read as a type-size line (its name slice, cut by UTF-8 bytes, included), and every type mapped was read from such a line |
| CliMain.CollectMapNoPanic | zngur-cli/src/main.rs:109-128 | the whole collection succeeds exactly when no kept line panics |
| CliMain.CollectMapLastWins | zngur-cli/src/main.rs:128 | each key maps to the value of the last kept line with that key |
| CliMain.CollectMapKeys | zngur-cli/src/main.rs:109-128 | every key of the map comes from a kept line |
| ZngurApi.FromZngFile | zngur/src/lib.rs:36-45 | a new builder has only the `.zng` file set |
| ZngurApi.SettersOverwriteAndCommute | zngur/src/lib.rs:47-70 | setting a field again replaces the earlier value, setters of different fields commute, and a setter leaves the other fields alone |
| ZngurApi.FileName | zngur/src/lib.rs:78-82 | a path has a file name exactly when it is not empty and does not end in `..`, and it is the last component |
| ZngurApi.SettingsOf | zngur/src/lib.rs:72-95 | a missing Rust path, then a missing header path, is the panic; otherwise the header is included by its file name, the namespace is `rust` unless given, and the mangling base is the explicit one, else the namespace, else the file's own |
| ZngurApi.DefaultNamespaceKeepsText | zngur/src/lib.rs:99-103 | with the default namespace the renaming leaves the header and the C++ text alone |
| ZngurApi.Generate | zngur/src/lib.rs:72-120 | with a missing Rust or header path nothing is written; otherwise the Rust file and then the renamed header are written, and the C++ file only when there is C++, holding the generated C++ with the namespace renamed; a missing C++ path is found only then |
| ZngurApi.FromCrateSettings | zngur-def/src/rdoc.rs:5-7 | the spec `from_crate` builds keeps the default spec's empty header name, namespace and mangling base |
| ZngurApi.AutoGenerate | zngur/src/lib.rs:153-179 | `AutoZngur` renders with the crate spec's empty settings, panics on a missing Rust path and then a missing header path before writing anything, then writes the Rust file, the header unrenamed, and the C++ file only when there is C++, holding the generated C++ with the namespace renamed; a missing C++ path is found only then |
| ZngurApi.AutoGenerateAsBuilder | zngur/src/lib.rs:72-179 | `AutoZngur` writes what a `Zngur` builder with the same paths and no namespace writes when that builder's renderer is handed the crate's empty settings instead of the header name, `rust` namespace and mangling base it settles |
| TemplateFormat.ToComments | xtask/src/format_templates.rs:4-19 | a `<%` without a `%>` is the only error; a template without `<%` converts to itself with no tags |
| TemplateFormat.ConvertTagsToComments | xtask/src/format_templates.rs:4-19 | the `while let` loop computes exactly that conversion |
| TemplateFormat.ToCommentsStep | xtask/src/format_templates.rs:7-16 | one pass replaces the first tag by the next numbered comment and records its inner text |
| TemplateFormat.PrependStep | xtask/src/format_templates.rs:7-16 | what one pass adds goes in front of the conversion of the rest |
| TemplateFormat.ConvertCommentsToTags | xtask/src/format_templates.rs:21-28 | the loop swaps comment `i` for tag `i`, for each tag in order |
| TemplateFormat.RenderRestored | xtask/src/format_templates.rs:21-28 | with every slot restored, the text is the pieces interleaved with the tags |
| TemplateFormat.PiecesCount | xtask/src/format_templates.rs:4-19 | a template that converts has one piece of text more than it has tags |
| TemplateFormat.DecomposeText | xtask/src/format_templates.rs:4-19 | the converted text is the pieces interleaved with the numbered comments |
| TemplateFormat.DecomposeTemplate | xtask/src/format_templates.rs:4-19 | the template is the pieces interleaved with the tags |
| TemplateFormat.DecomposeFree | xtask/src/format_templates.rs:4-19 | a template without the marker text has pieces and tags without it |
| TemplateFormat.MarkInComment | xtask/src/format_templates.rs:9 | inside a comment, the marker text starts only after its opening `/* ` |
| TemplateFormat.CommentIsOwn | xtask/src/format_templates.rs:9-23 | where comment `b` stands in the converted text, no other comment starts |
| TemplateFormat.NoCommentBelow | xtask/src/format_templates.rs:21-28 | past slot `i`, comment `i` does not occur |
| TemplateFormat.StepAt | xtask/src/format_templates.rs:25 | replacing comment `i` everywhere restores exactly slot `i` and changes nothing else |
| TemplateFormat.StepLater | xtask/src/format_templates.rs:25 | when the first slot is already restored, the replacement happens further on |
| TemplateFormat.StepHere | xtask/src/format_templates.rs:25 | when the first slot is comment `i`, it is swapped and nothing after it |
| TemplateFormat.RestoreRenders | xtask/src/format_templates.rs:21-28 | restoring the first `k` comments restores exactly the first `k` slots |
| TemplateFormat.RoundTrip | xtask/src/format_templates.rs:41-54 | swapping the comments back after converting gives the original template, as long as it never spells out the marker text |
| CiCompare.TextLines | xtask/src/ci.rs:61-62 | a file has exactly as many compared lines as `str::lines` gives it |
| CiCompare.CloseAfterOpen | xtask/src/ci.rs:80-81 | the `}}` found in the tail never overlaps the `{{re:` the tail starts with |
| CiCompare.BuildPattern | xtask/src/ci.rs:74-90 | the splicing loop builds the pattern of the expected line |
| CiCompare.PatternLiteral | xtask/src/ci.rs:77-90 | a line with no `{{re:` becomes its own escaped text |
| CiCompare.OpenFirst | xtask/src/ci.rs:77-78 | the search for `{{re:` stops at the first placeholder after text that has none |
| CiCompare.CloseFirst | xtask/src/ci.rs:80-82 | the search for `}}` stops right after the placeholder body |
| CiCompare.PatternPlaceholder | xtask/src/ci.rs:77-83 | a closed placeholder contributes its body as raw regex, between escaped text before it and the pattern of what follows |
| CiCompare.PatternUnclosed | xtask/src/ci.rs:84-90 | a `{{re:` without a closing `}}` is escaped as literal text together with the rest of the line |
| CiCompare.CompareExpectedWithActual | xtask/src/ci.rs:63-101 | the line-count check and the per-line loop give the comparison's result |
| CiCompare.CompareFromOk | xtask/src/ci.rs:72-100 | from any line on, the loop succeeds exactly when every remaining line matches its anchored pattern |
| CiCompare.CompareFromFirstFailure | xtask/src/ci.rs:72-99 | a failure names the first failing line (1-based); every line before it matched; an invalid pattern and a mismatch are told apart, and a mismatch reports both lines |
| CiCompare.Compare | xtask/src/ci.rs:55-104 | a line-count difference is reported first; otherwise the comparison succeeds exactly when every line matches |
| CiCompare.PlainFilesCompareExactly | xtask/src/ci.rs:55-104 | for expected files without placeholders, the comparison succeeds exactly when both files have the same lines |
| Toc.BeforeHash | toc.js:13 | the page address keeps the text before the first `#`, which holds no `#` and is a prefix of the address |
| Toc.BeforeHashUnique | toc.js:13 | those properties determine the text before the fragment uniquely |
| Toc.CurrentPage | toc.js:13-16 | the current page has no fragment and never ends in `/`: an address ending in `/` gets `index.html` appended, any other stays as it is |
| Toc.CurrentPageIdempotent | toc.js:13-16 | resolving an already resolved page changes nothing |
| Toc.SchemeLen | toc.js:22 | the length of the maximal run of `[a-z+]` at the start of a link |
| Toc.AbsoluteUrlMatchesPattern | toc.js:22 | the scan accepts a link exactly when `^(?:[a-z+]+:)?//` matches it |
| Toc.RewriteHref | toc.js:21-24 | a missing or empty `href`, a fragment link and an absolute URL stay as they are; any other link gets the path to the root in front |
| Toc.RewriteAtRoot | toc.js:21-24 | on the book's root page no link changes |
| Toc.AnchorsFrom | toc.js:17 | the links are exactly the anchors of the sidebar, in document order |
| Toc.AncestorsFrom | toc.js:28-39 | the upward walk visits the parent chain from the link's parent to the top, each step going to the parent |
| Toc.WalkTargets | toc.js:32-39 | everything the walk expands is a chapter item that comes before the starting element |
| Toc.WalkTargetSource | toc.js:32-39 | each element the walk expands is the chapter-item previous sibling of a list item on the chain of ancestors |
| Toc.WalkReachesAncestor | toc.js:32-39 | the walk expands the chapter-item previous sibling of every list item on the chain of ancestors |
| Toc.WalkTargetsOfAncestors | toc.js:32-39 | the walk expands exactly those siblings and nothing else |
| Toc.ExpandTargets | toc.js:28-39 | what an active link expands, its parent chapter item and the siblings of its ancestors, are all chapter items before the link |
| Toc.WalkTargetsByChapterItems | toc.js:29-34 | the walk depends on the class lists only through which elements are chapter items, so marking and expanding cannot change it |
| Toc.MarkStep | toc.js:27 | marking one more link `active` extends the set of marked links by that link |
| Toc.MarkedThenExpanded | toc.js:29-39 | expanding after marking is marking with the larger set of expanded elements |
| Toc.RewriteStep | toc.js:21-24 | rewriting link `n` rewrites exactly that link's `href` and keeps the first `n` rewrites |
| Toc.FirstStep | toc.js:19-41 | after one more link the active and expanded sets grow by that link and its targets when it is active, and not at all otherwise |
| Toc.ActiveFirstIff | toc.js:26 | a link is marked by the first `n` iterations exactly when it is among them and matches the current page, or is the first link on the root index page |
| Toc.MarkedActiveIff | toc.js:26-27 | after the loop a link carries `active` exactly when it carried it before or the activity test holds for it |
| Toc.ActiveFirstAreLinks | toc.js:27 | only sidebar links are marked active |
| Toc.ExpandedFirstAreChapterItems | toc.js:28-39 | whatever the loop expands is a chapter item that some active link expands |
| Toc.ScrollValue | toc.js:52 | a stored offset becomes a bounded scroll position; text that is not a decimal number scrolls to the top |
| Toc.WholePixels | toc.js:52 | the integral part of a stored offset is its decimal value when that is exact, and the top otherwise |
| Toc.ScrollValueDigits | toc.js:52 | a plain decimal offset restores exactly that offset |
| Toc.ScrollValueFraction | toc.js:52 | a fractional offset, as a zoomed page stores it, restores its whole pixels rather than the top |
| Toc.ScrollValuePadded | toc.js:52 | white space before or after the stored text does not change the restored offset |
| Toc.ScrollRoundTrip | toc.js:45-52 | the offset a click stores is non-empty and reads back as the same offset |
| Toc.FirstWith | toc.js:55 | the query finds the first element in document order with the class, or reports that none has it |
| Toc.ToggleAnchors | toc.js:61 | the toggle buttons are exactly the anchors with the `toggle` class |
| Toc.Filtered | toc.js:61 | filtering keeps exactly the listed elements that carry `toggle` |
| Toc.Flip | toc.js:63 | `classList.toggle` adds the class when absent and removes it when present, leaving every other class alone |
| Toc.FlipTwice | toc.js:63 | two clicks on a toggle restore the class list |
| Toc.SessionStorage.constructor | toc.js:45-49 | the storage starts with the given items |
| Toc.SessionStorage.GetItem | toc.js:48 | a lookup finds a value exactly when the key is stored, and returns the stored value |
| Toc.SessionStorage.SetItem | toc.js:45 | storing sets the key and changes nothing else |
| Toc.SessionStorage.RemoveItem | toc.js:49 | removing deletes the key and nothing else |
| Toc.Sidebar.constructor | toc.js:7-11 | a sidebar starts with its tree, no links, no toggles, no scroll and no listener |
| Toc.Sidebar.ExpandAncestors | toc.js:28-39 | the parent test and the upward walk add `expanded` to exactly the link's targets |
| Toc.Sidebar.ActivateLink | toc.js:26-40 | an active link is marked and its targets expanded, on top of what the loop had done so far |
| Toc.Sidebar.VisitLink | toc.js:20-40 | one iteration rewrites link `i` and marks it when active, keeping what earlier iterations did |
| Toc.Sidebar.MarkLinks | toc.js:17-41 | the loop rewrites every link and marks exactly the active links and their targets, without an early exit |
| Toc.Sidebar.RestoreScroll | toc.js:48-59 | the remembered offset is always removed; when present and non-empty it is applied, otherwise the first active entry is centred |
| Toc.Sidebar.Connect | toc.js:10-68 | attaching rewrites every link, marks the active ones and their targets, listens for clicks, and consumes the remembered offset: a non-empty one sets the scroll and leaves the centred entry alone, otherwise the scroll is kept and the first active entry is centred; then it collects the toggles |
| Toc.Sidebar.Click | toc.js:43-47 | a click on an anchor stores the current offset; any other click leaves storage unchanged |
| Toc.Sidebar.ToggleClick | toc.js:62-67 | a click on a toggle flips `expanded` on its parent and on nothing else |
| CppGlue.UninitMessage | examples/impl-trait/generated.h:4053 | the message is the fixed "use of uninitialized or moved" text followed by the type's name |
| CppGlue.Process.constructor | examples/impl-trait/generated.h:4051-4056 | a process starts with an empty trace of drops, calls and aborts |
| CppGlue.Process.Record | examples/impl-trait/generated.h:5792-5795 | a call appends exactly its event to the trace |
| CppGlue.Process.CheckInit | examples/impl-trait/generated.h:4051-4056 | an initialised object passes silently; an uninitialised one prints the message and aborts |
| CppGlue.Process.DropIfFlagged | examples/impl-trait/generated.h:3992-3997 | the drop function runs exactly when the flag is set |
| CppGlue.Owned.constructor | examples/impl-trait/generated.h:3991 | a default-constructed object has storage but no value |
| CppGlue.Owned.Moved | examples/impl-trait/generated.h:4000-4003 | move construction takes over the source's data and flag, leaves the source without a value, and drops nothing |
| CppGlue.Owned.MoveAssign | examples/impl-trait/generated.h:4004-4014 | self-assignment changes nothing; otherwise the target's own value is dropped first when it has one, then it takes the source's data and flag and the source is left without a value |
| CppGlue.Owned.Destroy | examples/impl-trait/generated.h:3992-3997 | the destructor drops the value exactly when the flag is set |
| CppGlue.Owned.CheckInit | examples/impl-trait/generated.h:4051-4056 | the check passes exactly when the object holds a value, and aborts otherwise |
| CppGlue.Owned.AssumeInit | examples/impl-trait/generated.h:4059-4061 | after Rust writes a value the flag is set |
| CppGlue.Owned.AssumeDeinit | examples/impl-trait/generated.h:4064-4067 | giving up a value checks that there is one, then clears the flag |
| CppGlue.BorrowOf | examples/impl-trait/generated.h:4100-4103 | a `Ref` or `RefMut` can be built exactly from an object holding a value, points at it and never moves it; otherwise the process aborts |
| CppGlue.MoveToRust | examples/char/generated.h:51-55 | the bytes handed to Rust are the object's data, and the object ends without a value, after a check that it had one |
| CppGlue.MoveFromRust | examples/char/generated.h:57-63 | a fresh object of the type holds the bytes Rust gave and owns them |
| CppGlue.CallReturningOwned | examples/impl-trait/generated.h:5787-5804 | an uninitialised input aborts before Rust is called; a panic is taken and thrown before the output is initialised, so the output is never dropped; otherwise the output holds Rust's result |
| CppGlue.ConstructFromOwned | examples/impl-trait/generated.h:5960-5971 | the constructor marks itself initialised, calls Rust, and only then gives up the argument, aborting after the call when the argument held no value |
| CppGlue.Plain.constructor | examples/char/generated.h:4365 | a plain value has storage of its size and no flag |
| CppGlue.Plain.Assign | examples/char/generated.h:4367-4382 | copy and move alike copy the data and leave the source as it was |
| CppGlue.CharLiteral | examples/char/generated.h:4602-4607 | `_rs` on a `char32_t` keeps a Unicode scalar value and replaces a surrogate or anything above U+10FFFF by U+FFFD |
| CppGlue.CharLiteralValue | examples/char/generated.h:4602-4607 | every literal is a character a Rust `char` can hold |
| CppGlue.CharBytes | examples/char/generated.h:4354-4356 | a `Char` stores its code point in four bytes |
| CppGlue.CharRoundTrip | examples/char/generated.h:4351-4356 | converting a `Char` back to `char32_t` gives the code point it was built from |
| CppGlue.BoolRoundTrip | examples/char/generated.h:4676-4681 | converting a `Bool` back gives the `bool` it was built from |
| CppGlue.BoolByteNormalises | examples/char/generated.h:4676-4681 | reading back any stored byte and storing it again gives 0 or 1 |
| CppGlue.StrLiteral | examples/impl-trait/generated.h:3874-3879 | `"…"_rs` stores the pointer and then the length |
| CppGlue.StrRefWords | examples/impl-trait/generated.h:3823-3879 | the two stored words make up the whole size of a `Ref<Str>` |
| CppGlue.StrLiteralReadsBack | examples/impl-trait/generated.h:3874-3879 | the text a literal refers to reads back from memory unchanged |
| CppGlue.PointerSizes | examples/impl-trait/generated.h:3823-3825 | a reference to a sized type takes one word, a reference to `str` or a boxed trait object two, and a `Char` exactly its four bytes |
| CppGlue.LegacyOwned.constructor | examples/osmium/generated.h:541 | a default-constructed object of the older emitter has storage but no value |
| CppGlue.LegacyOwned.Moved | examples/osmium/generated.h:549-552 | the older move constructor copies the data and sets its own flag, then checks the source (aborting when it had no value) and clears it |
| CppGlue.LegacyOwned.Destroy | examples/osmium/generated.h:542-546 | the destructor drops the value exactly when the flag is set |
| CppGlue.LegacyOwned.AssumeInit | examples/osmium/generated.h:578-580 | after Rust writes a value the flag is set |
| CppGlue.LegacyOwned.AssumeDeinit | examples/osmium/generated.h:583-585 | giving up the value clears the flag without any check |
| CppGlue.LegacyOwned.DataPtr | examples/osmium/generated.h:589-592 | taking the data address checks that the object holds a value and aborts otherwise |
| CppGlue.FlagsBits | examples/osmium/generated.h:725-767 | the call aborts unless the object holds a value; otherwise Rust runs once and its byte is the result |
| CppGlue.LegacyMoveAssignNeverAssigns | examples/osmium/generated.h:553-556 | however deep it is followed, the older move assignment never assigns: it recurses while the source has a value and aborts when it has none |
| RustGlue.PanicPayload.constructor | examples/impl-trait/src/generated.rs:92-94 | each thread starts with no panic payload |
| RustGlue.PanicPayload.DetectPanic | examples/impl-trait/src/generated.rs:97-104 | detection answers 1 exactly when a payload is set, 0 otherwise, and leaves the payload in place, so repeated detects agree |
| RustGlue.PanicPayload.TakePanic | examples/impl-trait/src/generated.rs:108-112 | after a take no payload is set, so a detect right after answers 0 |
| RustGlue.PanicPayload.CatchUnwind | examples/impl-trait/src/generated.rs:117-122 | a wrapped call that panics sets the payload; one that does not leaves it as it was |
| RustGlue.DestructorLog.constructor | examples/impl-trait/src/generated.rs:9-27 | no destructor has run yet |
| RustGlue.DestructorLog.Call | examples/impl-trait/src/generated.rs:27 | a destructor call appends exactly that destructor and its data |
| RustGlue.OpaqueOwnedObject.constructor | examples/impl-trait/src/generated.rs:13-18 | a new object holds the given data and destructor |
| RustGlue.OpaqueOwnedObject.Ptr | examples/impl-trait/src/generated.rs:20-22 | the pointer handed out is the data the object was made with |
| RustGlue.OpaqueOwnedObject.Drop | examples/impl-trait/src/generated.rs:25-29 | dropping runs the object's destructor on its data, once: the object is no longer live afterwards |
| Inventory.Bananas | examples/tutorial/src/lib.rs:28-35 | `count` bananas, each named "banana" with size 7 |
| Inventory.BananasAdd | examples/tutorial/src/lib.rs:28-35 | adding bananas in two rounds adds them all, in order |
| Inventory.RustInventory.NewEmpty | examples/tutorial/src/lib.rs:16-21 | a new inventory has no items and all of its space left |
| Inventory.RustInventory.AddItem | examples/tutorial/src/lib.rs:23-26 | the `u32` subtraction panics exactly when the item does not fit, changing nothing; otherwise the item goes at the end and its size is taken off the space |
| Inventory.RustInventory.AddBanana | examples/tutorial/src/lib.rs:28-35 | the loop panics exactly when seven times `count` exceeds the space; then as many bananas as fit were added first; otherwise all `count` are added and their size taken off |
| Inventory.RustInventory.IntoItems | examples/tutorial-wasm32/src/lib.rs:44-46 | the items come out in insertion order |
| Inventory.DivisionOfRemainder | examples/tutorial/src/lib.rs:28-35 | when fewer than seven units remain after `k` bananas, `k` is the number that fit and the rest is the remainder |
| Inventory.AddOne | examples/tutorial-wasm32/src/lib.rs:6-8 | the 32-bit `usize` addition succeeds below `usize::MAX` and gives one more, and overflows at `usize::MAX` |
| Inventory.CppInventory.constructor | examples/tutorial_cpp/inventory.h:14 | a new C++ inventory has no items and all of its space left |
| Inventory.CppInventory.AddItem | examples/tutorial_cpp/inventory.h:16-19 | the item goes at the end and the space shrinks by its size, wrapping modulo 2^32 |
| Inventory.CppInventory.AddBanana | examples/tutorial_cpp/inventory.h:21-28 | exactly `count` bananas go at the end and the space shrinks by seven each, wrapping modulo 2^32 |
| Inventory.WrapSub | examples/tutorial_cpp/inventory.h:17-27 | subtracting after wrapping is wrapping after subtracting, so the loop's wrapped total is the wrapped total of the whole |
| Inventory.WrapAgreesWhenItFits | examples/tutorial_cpp/inventory.h:17 | when the items fit, the wrapping C++ arithmetic and the checked Rust arithmetic agree |
| Inventory.ItemNew | examples/tutorial_cpp/impls.cpp:23-29 | the name is exactly the `len` bytes at the string's pointer, and the size is kept |
| Inventory.ItemDebugs | examples/tutorial_cpp/impls.cpp:44-48 | each item renders as `Item { name: "…", size: … }`, in order |
| Inventory.Fmt | examples/tutorial_cpp/impls.cpp:31-52 | what reaches the formatter is the built debug text up to its first NUL |
| Inventory.DebugText | examples/tutorial_cpp/impls.cpp:34-50 | the loop with its `is_first` flag builds exactly the `Inventory { remaining_space: …, items: [ … ] }` text, with a separator only between consecutive items |
| Inventory.UpToNul | examples/tutorial_cpp/impls.cpp:51 | `from_char_star(c_str())` keeps the longest NUL-free prefix: the result is a prefix without NUL, followed in the text by a NUL when shorter |
| Inventory.UpToNulWhole | examples/tutorial_cpp/impls.cpp:51 | the cut keeps a text whole exactly when the text holds no NUL |
| Inventory.UpToNulAt | examples/tutorial_cpp/impls.cpp:51 | a NUL right after a NUL-free text ends the cut there |
| Inventory.FmtWhole | examples/tutorial_cpp/impls.cpp:31-52 | when no item name holds a NUL, the printed text is the whole `Debug` text |
| Inventory.FmtCutsAtNul | examples/tutorial_cpp/impls.cpp:31-52 | an item whose name is a NUL-free text, a NUL and anything after is printed cut off right after `name: "` and the text before the NUL |
| Inventory.EmptyInventoryDebug | examples/tutorial_cpp/impls.cpp:36-50 | an empty inventory prints `items: []` |
| Inventory.DebugSpaceReadsBack | examples/tutorial_cpp/impls.cpp:34-35 | the decimal space after the prefix reads back as the space |
| Inventory.ImplAddBanana | examples/tutorial_cpp/impls.cpp:11-15 | the Rust-facing `add_banana` does what the C++ inventory's does |
| Inventory.ImplAddItem | examples/tutorial_cpp/impls.cpp:17-21 | the Rust-facing `add_item` does what the C++ inventory's does |
| Inventory.ImplNewEmpty | examples/tutorial_cpp/impls.cpp:6-9 | the Rust-facing `new_empty` builds a fresh empty C++ inventory |
| BlobStore.MultiBuf.constructor | examples/cxx_demo/src/main.rs:10-13 | a buffer starts at its first chunk |
| BlobStore.MultiBuf.NextChunk | examples/cxx_demo/src/main.rs:16-20 | each call returns the chunk at the position, or an empty one past the end, and moves the position on by one |
| BlobStore.ChunkAt | examples/cxx_demo/src/main.rs:17-19 | a position inside the list gives its chunk; any later position gives an empty chunk |
| BlobStore.StopAt | examples/cxx_demo/blobstore.cpp:27-34 | the reading stops at the first empty chunk from the position on, and every chunk before it is non-empty |
| BlobStore.GatherIsConcat | examples/cxx_demo/blobstore.cpp:27-34 | the contents are the chunks from the position up to, not including, the first empty one, concatenated in order |
| BlobStore.ConcatFront | examples/cxx_demo/blobstore.cpp:32-33 | concatenating a range is its first chunk followed by the rest |
| BlobStore.CStr | examples/cxx_demo/src/main.rs:36 | a tag read as a C string is its text up to the first NUL |
| BlobStore.CStrs | examples/cxx_demo/blobstore.cpp:53-54 | each stored tag is read back as a C string, in order |
| BlobStore.BlobMetadata.Default | examples/cxx_demo/src/main.rs:23-27 | the default metadata has size 0 and no tags |
| BlobStore.BlobMetadata.SetSize | examples/cxx_demo/src/main.rs:30-32 | `set_size` sets the size and changes nothing else |
| BlobStore.BlobMetadata.PushTag | examples/cxx_demo/src/main.rs:34-38 | `push_tag` appends exactly one tag at the end |
| BlobStore.InsertTag | examples/cxx_demo/blobstore.cpp:44 | inserting into the tag set gives exactly the old tags and the new one |
| BlobStore.InsertTagSorted | examples/cxx_demo/blobstore.cpp:14-44 | the tag set stays strictly ascending, so it holds no duplicates |
| BlobStore.SortedHeadBelow | examples/cxx_demo/blobstore.cpp:14 | in the set, everything after the first tag is above it |
| BlobStore.InsertPresentTag | examples/cxx_demo/blobstore.cpp:44 | a tag already present leaves the set as it was |
| BlobStore.InsertTagIdempotent | examples/cxx_demo/blobstore.cpp:44 | tagging twice with the same tag is tagging once |
| BlobStore.BlobAt | examples/cxx_demo/blobstore.cpp:38-44 | indexing the map gives the stored blob, or an empty one for an unknown id |
| BlobStore.Store.constructor | examples/cxx_demo/blobstore.cpp:16 | a new store holds no blobs |
| BlobStore.Store.Put | examples/cxx_demo/blobstore.cpp:20-40 | the blob holding the gathered contents is stored, with no tags, under the hash of those contents, replacing any blob with that id; the buffer ends one past the empty chunk |
| BlobStore.Store.Tag | examples/cxx_demo/blobstore.cpp:42-46 | tagging inserts into the blob's tag set, creating an empty blob for an unknown id, and changes no other blob |
| BlobStore.Store.Metadata | examples/cxx_demo/blobstore.cpp:48-57 | an unknown id gives the default metadata and inserts nothing; a known one reports the data length and the tags in ascending order |
| Iterators.VectorIterator.constructor | examples/simple/main.cpp:20 | a new iterator starts at the vector's first element |
| Iterators.VectorIterator.Next | examples/simple/main.cpp:22-28 | before the end, `next` gives the element at the position and moves on by one; at the end it gives `None` and stays there |
| Iterators.DrainForward | examples/simple/main.cpp:22-49 | draining the iterator yields the remaining elements in vector order, then stops at the end |
| Iterators.PoppingIterator.constructor | simple-example/main.cpp:27-30 | the iterator holds the given vector |
| Iterators.PoppingIterator.Next | simple-example/main.cpp:36-46 | on an empty vector `next` gives `None` and keeps it empty; otherwise it gives the last element and removes it |
| Iterators.DrainBackward | simple-example/main.cpp:36-46 | draining yields the elements in reverse order and leaves the vector empty |
| Primes.IsPrime | examples/rayon/main.cpp:9-18 | the answer is false below 2 and otherwise true exactly when no `i` with `2 <= i` and `i*i <= v` divides `v`; the loop ends because `i` grows until `i*i > v` |
| Primes.SmallCofactor | examples/rayon/main.cpp:12-13 | a divisor above the square root has a cofactor at least 2 whose square is at most `v` |
| Primes.SmallDivisorSuffices | examples/rayon/main.cpp:9-18 | testing divisors only up to the square root decides primality exactly |
| Primes.SmallCases | examples/rayon/main.cpp:9-18 | 2 and 3 pass the test, and no even number above 2 does |
| Benchmark.RangeIncreasing | benchmark/src/lib.rs:7-9 | the vector `0, 1, …, n-1` is strictly increasing and empty for `n = 0` |
| Benchmark.CheckFifth | benchmark/src/lib.rs:10 | `assert_eq!(5, v[5])` passes, returning the vector, exactly when the vector has a sixth element equal to 5 |
| Benchmark.BuildVecByPushRust | benchmark/src/lib.rs:5-12 | the Rust loop builds `0, 1, …, n-1` and then panics exactly when `n <= 5` |
| Benchmark.BuildVecByPushCpp | benchmark/impls.cpp:8-14 | the C++ loop builds `0, 1, …, n-1`, empty for `n = 0` |
| Benchmark.BuildVecByPushCppChecked | benchmark/src/lib.rs:14-18 | the Rust wrapper returns the C++ vector, and panics exactly when `n <= 5` |
| Greeters.Greet | examples/impl-trait/src/lib.rs:25-47 | a person's greeting is "Hello, I'm " and the name with "!"; a robot's is "Beep boop! Robot #" and the number |
| Greeters.GreetInjective | examples/impl-trait/src/lib.rs:25-47 | different greeters greet differently |
| Greeters.GreetFirstChar | examples/impl-trait/src/lib.rs:27-45 | a person's greeting starts with `H`, a robot's with `B` |
| Greeters.Display | examples/impl-trait/src/lib.rs:85-95 | a person displays as `Person(…)` and a robot as `Robot(#…)` |
| Greeters.DisplayInjective | examples/impl-trait/src/lib.rs:85-95 | different greeters display differently |
| Greeters.CreatePerson | examples/impl-trait/src/lib.rs:66-68 | `create_person` gives a person with that name |
| Greeters.CreateRobot | examples/impl-trait/src/lib.rs:71-73 | `create_robot` gives a robot with that number |
| Greeters.CreateGreeterByType | examples/impl-trait/src/lib.rs:77-83 | the greeter is a person exactly when `is_person` holds |
| Greeters.CreateByTypeAgrees | examples/impl-trait/src/lib.rs:77-83 | the chosen greeter is the one `create_person` or `create_robot` gives, and the argument for the other kind is ignored |
| Greeters.PrintGreeting | examples/impl-trait/src/lib.rs:51-53 | the printed line is the greeting followed by a newline |
| MemoryManagement.DropMessageInjective | examples/memory_management/src/lib.rs:11-15 | different values announce different drops |
| MemoryManagement.Stdout.constructor | examples/memory_management/src/lib.rs:13 | nothing has been printed yet |
| MemoryManagement.Stdout.PrintLine | examples/memory_management/src/lib.rs:13 | printing appends exactly one line |
| MemoryManagement.Drop | examples/memory_management/src/lib.rs:11-15 | each drop prints exactly one message naming the value |
| MemoryManagement.DropPair | examples/memory_management/src/lib.rs:6-9 | dropping a pair drops `first` and then `second` |
| MemoryManagement.Consumer.constructor | examples/memory_management/src/lib.rs:17-19 | a new consumer has received nothing |
| MemoryManagement.Consumer.Consume | examples/memory_management/src/lib.rs:18 | each call hands exactly its value to the consumer |
| MemoryManagement.Copies | examples/memory_management/src/lib.rs:22-23 | `times` copies of one value |
| MemoryManagement.ConsumeNTimes | examples/memory_management/src/lib.rs:21-25 | the consumer receives exactly `times` values named `name`, none for `times = 0` |
| MemoryManagement.ConsumeAndPanic | examples/memory_management/src/lib.rs:27-32 | without a panic the argument comes back unchanged and nothing is printed; with one the panic names the value, which is dropped while unwinding |
| AutoZng.Render | zngur-autozng/src/main.rs:30-48 | primitive, generic and resolved-path types render as their names; raw pointers, tuples, slices and qualified paths are `todo!()` panics |
| AutoZng.RenderIsPrefixAndName | zngur-autozng/src/main.rs:32-45 | a type renders exactly when the type under its references does, and then as one `&` or `&mut ` per reference followed by that type's name |
| AutoZng.PrintedStep | zngur-autozng/src/main.rs:151-156 | printing the next part puts the separator before it unless it is the first |
| AutoZng.PrintedAll | zngur-autozng/src/main.rs:151-162 | once every part is printed, the output is the parts joined by the separator |
| AutoZng.PartPanics | zngur-autozng/src/main.rs:40-46 | one part that panics makes the whole output panic |
| AutoZng.ParamTexts | zngur-autozng/src/main.rs:152-162 | one printed text per parameter |
| AutoZng.ParamTextsAt | zngur-autozng/src/main.rs:157-161 | parameter `k` prints as `self` when so named, and as its rendered type otherwise |
| AutoZng.ItemTextsAt | zngur-autozng/src/main.rs:143-168 | item `k` of an impl prints as its method line when it is a function, and as nothing otherwise |
| AutoZng.ImplTextsAt | zngur-autozng/src/main.rs:132-170 | impl `k` of a type prints its method lines |
| AutoZng.EntryTextsAt | zngur-autozng/src/main.rs:126-173 | entry `k` of the index prints its type block |
| AutoZng.TypeBlockShape | zngur-autozng/src/main.rs:130-172 | a type block opens with `type crate::Name {` and the `#heap_allocated;` line and closes with `}` |
| AutoZng.TraitImplsSkipped | zngur-autozng/src/main.rs:140-142 | a trait impl contributes nothing, whatever its items are |
| AutoZng.EmitMethod | zngur-autozng/src/main.rs:150-167 | the parameter loop prints the method line `fn name(params)[ -> out];` and panics exactly when a name or a rendered type does |
| AutoZng.EmitItem | zngur-autozng/src/main.rs:144-168 | one item prints its method line when it is a function, and nothing otherwise |
| AutoZng.EmitImplItems | zngur-autozng/src/main.rs:143-169 | an inherent impl prints the method lines of its items in order |
| AutoZng.EmitImplEntry | zngur-autozng/src/main.rs:133-170 | a trait impl prints nothing; an inherent impl prints its items |
| AutoZng.EmitImpls | zngur-autozng/src/main.rs:132-171 | a type's impls print in the order listed |
| AutoZng.EmitType | zngur-autozng/src/main.rs:127-173 | a struct or enum prints its block; any other item prints nothing |
| AutoZng.EmitIndex | zngur-autozng/src/main.rs:123-175 | the whole loop prints every entry's block in the map's iteration order, and panics exactly when some entry does |

## Left out

- ZngurMerge.MergeType: requires the two `ty`s to be equal rather than modelling the panic the source raises when they differ. The trait merge is stated the same way.
- Rdoc.ConvertPath: requires a local item's path to be non-empty, in place of the `unwrap` at zngur-def/src/rdoc.rs:309; rustdoc always records one, so the panic has no model.
- Rdoc.FromCrate: requires the crate root to be in the index with a name, in place of the two `unwrap`s at zngur-def/src/rdoc.rs:6; `FromCrateStep`, `FromCrateFrom` and the conversions beneath them carry the same requirement.
- Generator.Render: requires `Generator.SpecRenderable` (every type has a stack or heap layout and can be written in C++, every trait is a normal, expressible trait without static methods); the source's panics on a spec outside it, such as "traits with static methods are not object safe" (zngur-generator/src/rust.rs:383-384 and 441-442), have no model.
- Generator.RenderTrait: requires `Generator.TraitRenderable`, so the static-method panic of `add_builder_for_dyn_trait` is excluded rather than returned.
- RustEmit.RustFile.AddBuilderForDynTrait: requires `RustEmit.ObjectSafe`, so a trait with a static method is excluded rather than modelled as the panic at zngur-generator/src/rust.rs:383-384 and 441-442.
- ZngBuilder.AddType: a passing `#if`/`#match` block inside a type is walked in document order (the corrected walk `ZngTypeItems.InOrder`, which the loop `ZngTypeItems.WalkTypeItems` implements), not in the reversed order that zngur-parser/src/lib.rs:469-471 and 580-585 produce; `ZngTypeItems.StackWalkReversesBlocks` states the difference, listed under "## Findings".
- ZngBuilder.AddTypeKeeps: stated about the corrected document-order walk of `ZngBuilder.AddType`, for the same reason.
- Rdoc: `PrimitiveRustType::from`, the rustdoc primitive-name table, is not part of this model; it is the parameter `primFrom`. The crate index is a `HashMap`, so its iteration order is given as `krate.order`.
- The `debug_assert_eq!` of `try_match_template` (zngur-parser/src/template_types.rs:264-267), which checks in debug builds that substituting the bindings back gives the matched type, is not a step of `TemplateTypes.TryMatchTemplate`. Instead, `TemplateTypes.TemplateRoundTrip` proves that substitution gives the type back for every match, and `TemplateTypes.SubstituteVarsOfMatch` proves the asserted equality whenever the matched type counts as defined.
- Cfg.GetCfgPairs: the provider's `HashMap` iteration order is unspecified, so it is the parameter `order`. `ZngBuilder.Parse` and `AutoZng.EmitIndex` take their map orders the same way.
- Cfg: `InMemoryRustCfgProvider::load_from_cargo_env` reads environment variables and is not modelled.
- ZngBuilder.Parse: imported files are a map from the import path as written to their parsed items, without joining directories. `fuel` bounds the depth of nested imports, so an import cycle stops there instead of recursing for ever.
- The chumsky lexer and parser combinators of both front ends are not modelled. Parsing starts from the parsed datatypes, and diagnostics are lists of messages rather than ariadne reports.
- RustEmit.AddLayoutPolicyShim: requires a stack or heap layout, because the source has no case for a conservative layout.
- IntoCpp.TypeIntoCpp: defined only for types that `IntoCpp.Expressible` admits, so `char`, `impl Trait`, type variables and floats other than `f32`/`f64` are excluded, as the source's match has no arm for them.
- IntoCpp: the sort of named generic arguments is proved sorted and a permutation; its stability is not stated.
- RustEmit: SHA-256 in the signature hash is a parameter returning a 32-byte digest. The emitted Rust text is modelled by what it declares, not by its characters.
- GenRender.CfgDefine: `to_uppercase` changes ASCII letters only; Unicode case tables are not modelled. The same holds for the cache's `to_lowercase` of feature names.
- LayoutExtractor: running cargo and rustc, reading object files and searching directories are not modelled. The model covers the probe text, the section and file-name tests, and the byte decoding.
- LayoutCache: the compiler version text, the environment, the clock, the source hash and the outcomes of creating the directory and writing the file are parameters. Serialisation is taken to round-trip. `load` returns no cache in every case, as the source's conversion back is unfinished there.
- LayoutCache.Cache.Save: a failed write keeps the old file; a write that fails part way and leaves a truncated file is not modelled.
- CfgExtractor: running rustc or cargo and reading `RUSTFLAGS` from the environment are left to the caller.
- CliMain.LineRoundTrip: stated only for type names without white space and sizes below 2^32.
- CliMain: `get_type_sizes` and the CLI's file writes are process I/O and are not modelled.
- ZngurApi: reading the `.zng` file and rendering are parameters. Writing the outputs is the returned list of writes.
- TemplateFormat.RoundTrip: holds only for templates that never contain the text `SAILFISH_TEMPLATE`. For `<%a%>X<%b%>* SAILFISH_TEMPLATE0 */` the restored text differs from the template. Running clang-format is not modelled.
- CiCompare: `regex::escape` and the regular-expression engine are the parameters `esc` and `isMatch`. Reading the files and the shell steps of `ci::main` are not modelled.
- Toc: the upward walk stops at the sidebar element. Ancestors above the host element are not modelled, and a toggle whose parent lies outside the tree does nothing. Scrolling into view is recorded as the centred element, not as pixels.
- Toc.Sidebar.Click: the click target must itself be an anchor, as `e.target.tagName` is. A click on text inside an anchor stores nothing.
- Toc.ScrollValue: `scrollTop` is a whole number of pixels here, so a fractional stored offset restores its integral part; the exponent, hexadecimal and `Infinity` forms of a JavaScript number read as the top, an offset beyond 2^53 reads as the top rather than the largest scroll, and the white space trimmed is the Unicode White_Space set rather than the slightly different JavaScript one.
- CppGlue.LegacyMoveAssignNeverAssigns: the older move assignment re-invokes itself without end, so it is followed to a depth bound `depth` instead of being modelled as terminating.
- CppGlue.CharRoundTrip: only the code point, then bytes, then code point direction is stated; the direction from bytes back to bytes is not.
- CppGlue: `memcpy`, `reinterpret_cast` and the address arithmetic of `Ref` are modelled as byte sequences and object references. Only the event trace records drops, calls and aborts. Raising `SIGSEGV` after the message is the `Aborted` event.
- RustGlue: `PANIC_PAYLOAD` is thread-local in the source and is a single cell here.
- BlobStore: `std::hash` is the parameter `hash`.
- Primes.IsPrime: the counter is unbounded here, whereas the source's `int i` overflows once `i * i` passes 2^31, for inputs of about 2^31 and more.
- Primes: the rayon `par_iter` pipeline that calls `is_prime` is not modelled.
- Greeters: the `async` functions of the example crate are not modelled.
- Floating-point builtins and fields, `double_t` and `float_t`, appear only as names.
- Example `main` drivers that only call bindings and print are not modelled. The same goes for `build.rs` files and the orchestration in `zngur-auto-layout/src/lib.rs`.

## Findings

| source | as written | input that shows it | evidently intended | confidence | as-written member | corrected member |
|---|---|---|---|---|---|---|
| zngur-parser/src/lib.rs:469-585 | the items of a passing `#if`/`#match` block inside a type are pushed onto the `to_process` stack in document order and then popped, so they are processed in reverse | `fn a` and `fn b` inside a passing `#if` give the methods `[b, a]`; outside a block they give `[a, b]` | block items processed in document order, like the items around them | high, not executed | ZngTypeItems.StackWalkReversesBlocks | ZngTypeItems.WalkTypeItems |
| zngur-cli/src/cfg_extractor.rs:174-204 | a backslash between words enters `Escape(&Delem)`, and the escaped character goes back to `Delem`, so the word is never ended | `\a` gives no flags; `\a b` gives `["\\ab"]` | the escape starts a word: `\a` gives `["\\a"]` and `\a b` gives `["\\a", "b"]` | high, not executed | CfgExtractor.EscapeBetweenWordsLost | CfgExtractor.CorrectedKeepsEscapedWord |
| zngur-auto-layout/src/extractor.rs:422-425 | a section matches type `i` when its name contains `.zngur_i` | the section `.zngur_10` of type 10 matches type 1 | a section matches only the type whose index it names | medium, not executed | LayoutExtractor.SectionOfTenMatchesOne | LayoutExtractor.ExactMatchIsOwnIndex |
| zngur-auto-layout/src/extractor.rs:212-213 | a library file matches crate `foo` when its name starts with `libfoo` | `libfoo_bar-1.rlib` is taken for crate `foo` | the name is `libfoo` followed by `-hash` or the extension | medium, not executed | LayoutExtractor.OtherCrateLibMatches | LayoutExtractor.ExactLibIsOwnCrate |
| examples/osmium/generated.h:553-556 | move assignment is `*this = Reader(std::move(other))`, which calls itself again | assigning any initialised `Reader` | drop the target's own value, take the source's data and flag, and clear the source, as the current emitter does | high, not executed | CppGlue.LegacyMoveAssignNeverAssigns | CppGlue.Owned.MoveAssign |
