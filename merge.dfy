/**
 * The partial-union operations that combine `.zng` declarations and imported
 * specifications (`Merge`). A merge writes into `into`; a failed merge reports
 * a `Conflict` and leaves `into` in whatever state it had reached, which the
 * model returns alongside the result.
 */
module ZngurMerge {
  import opened Wrappers
  import opened SeqUtil
  import opened ZngurDef

  datatype MergeFailure = Conflict(message: string)

  type MergeResult = Result<(), MergeFailure>

  const OK: MergeResult := Ok(())

  // ---- push_unique / inplace_union ----

  /** `push_unique`: appends `item` exactly when it is not already present. */
  function PushUnique<T(==, !new)>(item: T, v: seq<T>): (r: seq<T>)
    ensures v <= r
    ensures |r| == |v| + 1 <==> item !in v
    ensures |r| == |v| || |r| == |v| + 1
    ensures forall x :: x in r <==> x in v || x == item
    ensures NoDup(v) ==> NoDup(r)
  {
    if item in v then v else v + [item]
  }

  /** The value `inplace_union` leaves in `into`: at most one new element
      per incoming one. */
  function Union<T(==, !new)>(other: seq<T>, into: seq<T>): (r: seq<T>)
    ensures |into| <= |r| <= |into| + |other|
    decreases |other|
  {
    if |other| == 0 then into else Union(other[1..], PushUnique(other[0], into))
  }

  /** `inplace_union` keeps `into` as a prefix, adds exactly the missing elements,
      creates no duplicates, and changes nothing when `other` adds nothing new. */
  lemma {:induction false} UnionLaws<T(!new)>(other: seq<T>, into: seq<T>)
    ensures into <= Union(other, into)
    ensures forall x :: x in Union(other, into) <==> x in into || x in other
    ensures NoDup(into) ==> NoDup(Union(other, into))
    ensures (forall x :: x in other ==> x in into) ==> Union(other, into) == into
    decreases |other|
  {
    if |other| > 0 {
      var next := PushUnique(other[0], into);
      UnionLaws(other[1..], next);
      forall x | x in other
        ensures x == other[0] || x in other[1..]
      {
        var i :| 0 <= i < |other| && other[i] == x;
        if i > 0 { assert other[1..][i - 1] == x; }
      }
      assert forall x :: x in other[1..] ==> x in other;
    }
  }

  /** `inplace_union`, as the loop the source runs. */
  method InplaceUnion<T(==, !new)>(other: seq<T>, into: seq<T>) returns (r: seq<T>)
    ensures r == Union(other, into)
    ensures into <= r
    ensures forall x :: x in r <==> x in into || x in other
  {
    r := into;
    var i := 0;
    while i < |other|
      invariant 0 <= i <= |other|
      invariant Union(other[i..], r) == Union(other, into)
    {
      assert other[i..][1..] == other[i + 1..];
      r := PushUnique(other[i], r);
      i := i + 1;
    }
    assert other[|other|..] == [];
    UnionLaws(other, into);
  }

  // ---- merge_by_identity ----

  /** Index of the first element whose identity key is `k` (`iter_mut().find`). */
  function FindKey<T, K(==)>(v: seq<T>, key: T -> K, k: K): (r: Option<nat>)
    ensures r.Some? ==> r.value < |v| && key(v[r.value]) == k && forall j :: 0 <= j < r.value ==> key(v[j]) != k
    ensures r.None? ==> forall j :: 0 <= j < |v| ==> key(v[j]) != k
    decreases |v|
  {
    if |v| == 0 then None
    else if key(v[0]) == k then Some(0)
    else match FindKey(v[1..], key, k)
      case None => None
      case Some(j) => Some(j + 1)
  }

  predicate KeysUnique<T, K(==)>(v: seq<T>, key: T -> K) {
    forall i, j :: 0 <= i < j < |v| ==> key(v[i]) != key(v[j])
  }

  /** `merge_by_identity` for the exact-match element merges (methods,
      constructors, fields): an incoming item whose first same-identity
      element differs from it is a conflict; an item with no such element is
      appended. */
  function MergeByIdentity<T(==), K(==)>(other: seq<T>, into: seq<T>, key: T -> K, msg: string): (r: (seq<T>, MergeResult))
    ensures |into| <= |r.0| <= |into| + |other|
    decreases |other|
  {
    if |other| == 0 then (into, OK)
    else
      match FindKey(into, key, key(other[0]))
      case Some(j) =>
        if other[0] != into[j] then (into, Err(Conflict(msg)))
        else MergeByIdentity(other[1..], into, key, msg)
      case None => MergeByIdentity(other[1..], into + [other[0]], key, msg)
  }

  /** Whatever the outcome, `into` is only extended; on success every incoming
      item is present, nothing foreign is added, and identities stay unique. */
  lemma {:induction false} MergeByIdentityLaws<T(!new), K>(other: seq<T>, into: seq<T>, key: T -> K, msg: string)
    ensures into <= MergeByIdentity(other, into, key, msg).0
    ensures forall y :: y in MergeByIdentity(other, into, key, msg).0 ==> y in into || y in other
    ensures MergeByIdentity(other, into, key, msg).1.Ok? ==> forall x :: x in other ==> x in MergeByIdentity(other, into, key, msg).0
    ensures KeysUnique(into, key) ==> KeysUnique(MergeByIdentity(other, into, key, msg).0, key)
    ensures MergeByIdentity(other, into, key, msg).1.Err? ==> MergeByIdentity(other, into, key, msg).1 == Err(Conflict(msg))
    decreases |other|
  {
    if |other| > 0 {
      var item := other[0];
      var next := if FindKey(into, key, key(item)).None? then into + [item] else into;
      MergeByIdentityLaws(other[1..], next, key, msg);
      var result := MergeByIdentity(other, into, key, msg);
      forall x | x in other
        ensures x == other[0] || x in other[1..]
      {
        var i :| 0 <= i < |other| && other[i] == x;
        if i > 0 { assert other[1..][i - 1] == x; }
      }
      assert forall x :: x in other[1..] ==> x in other;
      if result.1.Ok? {
        var f := FindKey(into, key, key(item));
        if f.Some? {
          assert item == into[f.value];
          PrefixIn(into, result.0, f.value);
        } else {
          PrefixIn(next, result.0, |into|);
        }
      }
    }
  }

  lemma PrefixIn<T>(a: seq<T>, b: seq<T>, i: nat)
    requires a <= b && i < |a|
    ensures a[i] in b
  {
    assert b[i] == a[i];
  }

  /** Merging elements that are already present (with unique identities) is a no-op that succeeds. */
  lemma {:induction false} MergeByIdentityIdempotent<T(!new), K>(other: seq<T>, into: seq<T>, key: T -> K, msg: string)
    requires KeysUnique(into, key)
    requires forall x :: x in other ==> x in into
    ensures MergeByIdentity(other, into, key, msg) == (into, OK)
    decreases |other|
  {
    if |other| > 0 {
      var item := other[0];
      assert item in other;
      var k :| 0 <= k < |into| && into[k] == item;
      var f := FindKey(into, key, key(item));
      assert f.Some? && f.value == k;
      assert forall x :: x in other[1..] ==> x in other;
      MergeByIdentityIdempotent(other[1..], into, key, msg);
    }
  }

  /** An incoming item whose identity is taken by a different element is rejected. */
  lemma MergeByIdentityConflict<T, K>(x: T, into: seq<T>, key: T -> K, msg: string, k: nat)
    requires KeysUnique(into, key)
    requires k < |into| && key(into[k]) == key(x) && into[k] != x
    ensures MergeByIdentity([x], into, key, msg) == (into, Err(Conflict(msg)))
  {
    var f := FindKey(into, key, key(x));
    assert f.Some? && f.value == k;
  }

  /** `merge_by_identity`, as the loop the source runs. */
  method MergeByIdentityLoop<T(==, !new), K(==)>(other: seq<T>, into: seq<T>, key: T -> K, msg: string)
    returns (r: seq<T>, res: MergeResult)
    ensures (r, res) == MergeByIdentity(other, into, key, msg)
    ensures into <= r
  {
    r := into;
    var i := 0;
    while i < |other|
      invariant 0 <= i <= |other|
      invariant MergeByIdentity(other[i..], r, key, msg) == MergeByIdentity(other, into, key, msg)
    {
      assert other[i..][1..] == other[i + 1..];
      var item := other[i];
      var found := FindKey(r, key, key(item));
      if found.Some? {
        if item != r[found.value] {
          res := Err(Conflict(msg));
          MergeByIdentityLaws(other, into, key, msg);
          return;
        }
      } else {
        r := r + [item];
      }
      i := i + 1;
    }
    assert other[|other|..] == [];
    res := OK;
    MergeByIdentityLaws(other, into, key, msg);
  }

  // ---- exact-match merges and Option ----

  /** The merges of `CppValue`, `CppRef`, method details, constructors and
      fields: equal values merge, different ones conflict; `into` never changes. */
  function MergeExact<T(==)>(src: T, into: T, msg: string): (r: MergeResult)
    ensures r.Ok? <==> src == into
    ensures r.Err? ==> r.error == Conflict(msg)
  {
    if src != into then Err(Conflict(msg)) else OK
  }

  /** `Option` merge over an exact-match payload. */
  function MergeOption<T(==)>(src: Option<T>, into: Option<T>, msg: string): (r: (Option<T>, MergeResult))
    ensures src.None? ==> r == (into, OK)
    ensures src.Some? && into.None? ==> r == (src, OK)
    ensures src.Some? && into.Some? ==> r.0 == into && (r.1.Ok? <==> src.value == into.value)
  {
    match src
    case None => (into, OK)
    case Some(s) =>
      match into
      case Some(d) => (into, MergeExact(s, d, msg))
      case None => (src, OK)
  }

  // ---- ZngurType / ZngurTrait ----

  function MethodName(m: ZngurMethodDetails): string { m.data.name }
  function ConstructorName(c: ZngurConstructor): Option<string> { c.name }
  function FieldName(f: ZngurField): string { f.name }

  const LAYOUT_CONFLICT := "Conflicting layout policy found"
  const CPP_REF_CONFLICT := "cpp_ref implies a zero sized stack allocated type"

  /** Two layouts, both given, that differ. */
  predicate LayoutsClash(src: ZngurType, into: ZngurType) {
    src.layout.Some? && into.layout.Some? && src.layout != into.layout
  }

  /** Two optional values that do not disagree. */
  predicate Agree<T(==)>(src: Option<T>, into: Option<T>) {
    src.Some? && into.Some? ==> src.value == into.value
  }

  /** The layout part of a `ZngurType` merge: two different layouts conflict,
      otherwise `into` keeps its layout or takes the source's; a `cpp_ref`
      demands the zero-sized layout. */
  function MergeLayout(src: ZngurType, into: ZngurType): (r: (ZngurType, MergeResult))
    ensures r.0 == into.(layout := r.0.layout)
    ensures LayoutsClash(src, into) ==> r == (into, Err(Conflict(LAYOUT_CONFLICT)))
    ensures !LayoutsClash(src, into) ==>
              && r.0.layout == into.layout.Or(src.layout)
              && (r.1.Ok? <==> src.cppRef.None? || r.0.layout == Some(ZERO_SIZED_TYPE))
              && (r.1.Err? ==> r.1.error == Conflict(CPP_REF_CONFLICT))
  {
    if src.layout.Some? && into.layout.Some? && src.layout != into.layout then (into, Err(Conflict(LAYOUT_CONFLICT)))
    else
      var t1 := into.(layout := into.layout.Or(src.layout));
      if src.cppRef.Some? && t1.layout != Some(ZERO_SIZED_TYPE) then (t1, Err(Conflict(CPP_REF_CONFLICT)))
      else (t1, OK)
  }

  /** The `cpp_value` and `cpp_ref` part of a `ZngurType` merge. */
  function MergeCpp(src: ZngurType, into: ZngurType): (r: (ZngurType, MergeResult))
    ensures r.0 == into.(cppValue := r.0.cppValue, cppRef := r.0.cppRef)
    ensures r.1.Ok? <==> Agree(src.cppValue, into.cppValue) && Agree(src.cppRef, into.cppRef)
    ensures r.1.Ok? ==> r.0.cppValue == into.cppValue.Or(src.cppValue) && r.0.cppRef == into.cppRef.Or(src.cppRef)
    ensures !Agree(src.cppValue, into.cppValue) ==> r.1 == Err(Conflict("Cpp value mismatch")) && r.0 == into
    ensures Agree(src.cppValue, into.cppValue) && !Agree(src.cppRef, into.cppRef) ==>
              r.1 == Err(Conflict("Cpp ref mismatch")) && r.0.cppRef == into.cppRef
  {
    var (cv, cvRes) := MergeOption(src.cppValue, into.cppValue, "Cpp value mismatch");
    var t2 := into.(cppValue := cv);
    if cvRes.Err? then (t2, cvRes)
    else
      var (cr, crRes) := MergeOption(src.cppRef, t2.cppRef, "Cpp ref mismatch");
      (t2.(cppRef := cr), crRes)
  }

  /** The member part of a `ZngurType` merge: traits united, methods,
      constructors and fields merged by name. */
  function MergeMembers(src: ZngurType, into: ZngurType): (r: (ZngurType, MergeResult))
    ensures r.0 == into.(wellknownTraits := r.0.wellknownTraits, methods := r.0.methods,
                         constructors := r.0.constructors, fields := r.0.fields)
    ensures r.0.wellknownTraits == Union(src.wellknownTraits, into.wellknownTraits)
    ensures var (ms, mRes) := MergeByIdentity(src.methods, into.methods, MethodName, "Method mismatch");
            var (cs, cRes) := MergeByIdentity(src.constructors, into.constructors, ConstructorName, "Constructor mismatch");
            var (fs, fRes) := MergeByIdentity(src.fields, into.fields, FieldName, "Field mismatch");
            && r.0.methods == ms
            && (mRes.Err? ==> r.1 == mRes && r.0.constructors == into.constructors && r.0.fields == into.fields)
            && (mRes.Ok? ==> r.0.constructors == cs)
            && (mRes.Ok? && cRes.Err? ==> r.1 == cRes && r.0.fields == into.fields)
            && (mRes.Ok? && cRes.Ok? ==> r.0.fields == fs && r.1 == fRes)
  {
    var t4 := into.(wellknownTraits := Union(src.wellknownTraits, into.wellknownTraits));
    var (ms, mRes) := MergeByIdentity(src.methods, t4.methods, MethodName, "Method mismatch");
    var t5 := t4.(methods := ms);
    if mRes.Err? then (t5, mRes)
    else
      var (cs, cRes) := MergeByIdentity(src.constructors, t5.constructors, ConstructorName, "Constructor mismatch");
      var t6 := t5.(constructors := cs);
      if cRes.Err? then (t6, cRes)
      else
        var (fs, fRes) := MergeByIdentity(src.fields, t6.fields, FieldName, "Field mismatch");
        (t6.(fields := fs), fRes)
  }

  /** `ZngurType` merge (the caller guarantees equal `ty`s; the source panics otherwise). */
  function MergeType(src: ZngurType, into: ZngurType): (r: (ZngurType, MergeResult))
    requires src.ty == into.ty
    ensures r.0.ty == into.ty
  {
    var (t1, r1) := MergeLayout(src, into);
    if r1.Err? then (t1, r1)
    else
      var (t2, r2) := MergeCpp(src, t1);
      if r2.Err? then (t2, r2)
      else MergeMembers(src, t2)
  }

  /** Layout rule of a type merge: two different layouts conflict; otherwise
      the merged layout is `into`'s, falling back to the source's; the type
      itself never changes. */
  lemma MergeTypeLayout(src: ZngurType, into: ZngurType)
    requires src.ty == into.ty
    ensures MergeType(src, into).0.ty == into.ty
    ensures (src.layout.Some? && into.layout.Some? && src.layout != into.layout)
            ==> MergeType(src, into) == (into, Err(Conflict(LAYOUT_CONFLICT)))
    ensures !(src.layout.Some? && into.layout.Some? && src.layout != into.layout)
            ==> MergeType(src, into).0.layout == (if into.layout.Some? then into.layout else src.layout)
  {
  }

  /** A successful merge of a type with a `cpp_ref` leaves a zero-sized layout. */
  lemma MergeTypeCppRef(src: ZngurType, into: ZngurType)
    requires src.ty == into.ty
    requires src.cppRef.Some?
    ensures MergeType(src, into).1.Ok? ==> MergeType(src, into).0.layout == Some(ZERO_SIZED_TYPE)
    ensures into.layout.Some? && into.layout != Some(ZERO_SIZED_TYPE) ==> MergeType(src, into).1.Err?
  {
  }

  /** A well-formed type is a fixed point of merging with itself. */
  predicate WellFormedType(t: ZngurType) {
    && NoDup(t.wellknownTraits)
    && KeysUnique(t.methods, MethodName)
    && KeysUnique(t.constructors, ConstructorName)
    && KeysUnique(t.fields, FieldName)
    && (t.cppRef.Some? ==> t.layout == Some(ZERO_SIZED_TYPE))
  }

  lemma MergeTypeIdempotent(t: ZngurType)
    requires WellFormedType(t)
    ensures MergeType(t, t) == (t, OK)
  {
    UnionLaws(t.wellknownTraits, t.wellknownTraits);
    MergeByIdentityIdempotent(t.methods, t.methods, MethodName, "Method mismatch");
    MergeByIdentityIdempotent(t.constructors, t.constructors, ConstructorName, "Constructor mismatch");
    MergeByIdentityIdempotent(t.fields, t.fields, FieldName, "Field mismatch");
  }

  /** The member stage keeps everything `into` had in front and, on success,
      contains every trait, method, constructor and field of the source. */
  lemma MergeMembersKeeps(src: ZngurType, into: ZngurType)
    ensures into.wellknownTraits <= MergeMembers(src, into).0.wellknownTraits
    ensures into.methods <= MergeMembers(src, into).0.methods
    ensures into.constructors <= MergeMembers(src, into).0.constructors
    ensures into.fields <= MergeMembers(src, into).0.fields
    ensures MergeMembers(src, into).1.Ok? ==>
              (forall w :: w in src.wellknownTraits ==> w in MergeMembers(src, into).0.wellknownTraits)
              && (forall m :: m in src.methods ==> m in MergeMembers(src, into).0.methods)
              && (forall c :: c in src.constructors ==> c in MergeMembers(src, into).0.constructors)
              && (forall f :: f in src.fields ==> f in MergeMembers(src, into).0.fields)
  {
    UnionLaws(src.wellknownTraits, into.wellknownTraits);
    MergeByIdentityLaws(src.methods, into.methods, MethodName, "Method mismatch");
    MergeByIdentityLaws(src.constructors, into.constructors, ConstructorName, "Constructor mismatch");
    MergeByIdentityLaws(src.fields, into.fields, FieldName, "Field mismatch");
  }

  /** `ZngurTrait` merge after its equal-`tr` guard: the methods are united. */
  function MergeTraitMethods(src: ZngurTrait, into: ZngurTrait): (ZngurTrait, MergeResult) {
    (into.(methods := Union(src.methods, into.methods)), OK)
  }

  /** `ZngurTrait` merge never fails and keeps `into`'s methods in front. */
  lemma MergeTraitLaws(src: ZngurTrait, into: ZngurTrait)
    requires src.tr == into.tr
    ensures MergeTraitMethods(src, into).1 == OK
    ensures MergeTraitMethods(src, into).0.tr == into.tr
    ensures into.methods <= MergeTraitMethods(src, into).0.methods
    ensures forall m :: m in MergeTraitMethods(src, into).0.methods <==> m in into.methods || m in src.methods
  {
    UnionLaws(src.methods, into.methods);
  }

  // ---- IndexMap merge ----

  function FindEntry<K(==), V>(m: seq<Entry<K, V>>, k: K): (r: Option<nat>)
    ensures r.Some? ==> r.value < |m| && m[r.value].key == k
    ensures r.None? ==> forall j :: 0 <= j < |m| ==> m[j].key != k
    decreases |m|
  {
    if |m| == 0 then None
    else if m[0].key == k then Some(0)
    else match FindEntry(m[1..], k)
      case None => None
      case Some(j) => Some(j + 1)
  }

  function Keys<K, V>(m: seq<Entry<K, V>>): (r: seq<K>)
    ensures |r| == |m| && forall i :: 0 <= i < |m| ==> r[i] == m[i].key
  {
    seq(|m|, i requires 0 <= i < |m| => m[i].key)
  }

  /** Merge of key/value pairs into an insertion-ordered map: absent keys are
      appended, present ones have their values merged, and the first failing
      value merge aborts. */
  function MergeEntries<K(==), V>(entries: seq<Entry<K, V>>, into: seq<Entry<K, V>>, mergeValue: (V, V) -> (V, MergeResult))
    : (r: (seq<Entry<K, V>>, MergeResult))
    ensures |into| <= |r.0| <= |into| + |entries|
    decreases |entries|
  {
    if |entries| == 0 then (into, OK)
    else
      var e := entries[0];
      match FindEntry(into, e.key)
      case None => MergeEntries(entries[1..], into + [e], mergeValue)
      case Some(j) =>
        var (v, res) := mergeValue(e.value, into[j].value);
        var next := into[j := into[j].(value := v)];
        if res.Err? then (next, res) else MergeEntries(entries[1..], next, mergeValue)
  }

  /** No incoming pair has key `k`. */
  ghost predicate KeyAbsent<K, V>(entries: seq<Entry<K, V>>, k: K) {
    forall n :: 0 <= n < |entries| ==> entries[n].key != k
  }

  lemma KeyAbsentTail<K, V>(entries: seq<Entry<K, V>>, k: K)
    requires |entries| > 0 && KeyAbsent(entries, k)
    ensures KeyAbsent(entries[1..], k)
  {
    forall n | 0 <= n < |entries| - 1 ensures entries[1..][n].key != k {
      assert entries[1..][n] == entries[n + 1];
    }
  }

  /** One pair merged into the map: a new key is appended with its value, an
      existing key gets the merge of the incoming value into its own. */
  lemma MergeEntriesSingle<K, V>(e: Entry<K, V>, into: seq<Entry<K, V>>, mergeValue: (V, V) -> (V, MergeResult))
    ensures FindEntry(into, e.key).None? ==> MergeEntries([e], into, mergeValue) == (into + [e], OK)
    ensures FindEntry(into, e.key).Some? ==>
              var j := FindEntry(into, e.key).value;
              var (v, res) := mergeValue(e.value, into[j].value);
              MergeEntries([e], into, mergeValue) == (into[j := Entry(e.key, v)], res)
  {
    assert [e][1..] == [];
    if FindEntry(into, e.key).Some? {
      var j := FindEntry(into, e.key).value;
      var (v, res) := mergeValue(e.value, into[j].value);
      assert into[j].(value := v) == Entry(e.key, v);
      if res.Ok? { var u: () := res.value; assert u == (); assert res == OK; }
    }
  }

  /** The keys of `into` keep their positions, every incoming key is present
      afterwards on success, keys stay unique, a failure is a failing value
      merge, and an entry whose key no incoming pair has is left as it was. */
  lemma {:induction false} MergeEntriesLaws<K, V>(entries: seq<Entry<K, V>>, into: seq<Entry<K, V>>, mergeValue: (V, V) -> (V, MergeResult))
    ensures Keys(into) <= Keys(MergeEntries(entries, into, mergeValue).0)
    ensures MergeEntries(entries, into, mergeValue).1.Ok? ==>
              forall i :: 0 <= i < |entries| ==> entries[i].key in Keys(MergeEntries(entries, into, mergeValue).0)
    ensures NoDup(Keys(into)) ==> NoDup(Keys(MergeEntries(entries, into, mergeValue).0))
    ensures MergeEntries(entries, into, mergeValue).1.Err? ==>
              exists a, b :: mergeValue(a, b).1 == MergeEntries(entries, into, mergeValue).1
    ensures forall i :: 0 <= i < |into| && KeyAbsent(entries, into[i].key) ==>
              i < |MergeEntries(entries, into, mergeValue).0| && MergeEntries(entries, into, mergeValue).0[i] == into[i]
    decreases |entries|
  {
    if |entries| > 0 {
      var e := entries[0];
      match FindEntry(into, e.key)
      case None =>
        var next := into + [e];
        assert Keys(next) == Keys(into) + [e.key];
        MergeEntriesLaws(entries[1..], next, mergeValue);
        if MergeEntries(entries, into, mergeValue).1.Ok? {
          PrefixIn(Keys(next), Keys(MergeEntries(entries, into, mergeValue).0), |into|);
        }
        forall i | 0 <= i < |into| && KeyAbsent(entries, into[i].key)
          ensures KeyAbsent(entries[1..], next[i].key)
        {
          KeyAbsentTail(entries, into[i].key);
        }
        forall i | 0 <= i < |entries| ensures entries[i].key in Keys(MergeEntries(entries, into, mergeValue).0) || MergeEntries(entries, into, mergeValue).1.Err? {
          if i > 0 { assert entries[i] == entries[1..][i - 1]; }
        }
      case Some(j) =>
        var (v, res) := mergeValue(e.value, into[j].value);
        var next := into[j := into[j].(value := v)];
        assert Keys(next) == Keys(into);
        forall i | 0 <= i < |into| && KeyAbsent(entries, into[i].key)
          ensures next[i] == into[i] && KeyAbsent(entries[1..], next[i].key)
        {
          assert entries[0].key != into[i].key;
          KeyAbsentTail(entries, into[i].key);
        }
        if res.Ok? {
          MergeEntriesLaws(entries[1..], next, mergeValue);
          PrefixIn(Keys(next), Keys(MergeEntries(entries, into, mergeValue).0), j);
          forall i | 0 <= i < |entries| ensures entries[i].key in Keys(MergeEntries(entries, into, mergeValue).0) || MergeEntries(entries, into, mergeValue).1.Err? {
            if i > 0 { assert entries[i] == entries[1..][i - 1]; }
          }
        }
    }
  }

  // ---- merges into a whole specification ----

  function FindType(types: seq<ZngurType>, ty: RustType): (r: Option<nat>)
    ensures r.Some? ==> r.value < |types| && types[r.value].ty == ty && forall j :: 0 <= j < r.value ==> types[j].ty != ty
    ensures r.None? ==> forall j :: 0 <= j < |types| ==> types[j].ty != ty
    decreases |types|
  {
    if |types| == 0 then None
    else if types[0].ty == ty then Some(0)
    else match FindType(types[1..], ty)
      case None => None
      case Some(j) => Some(j + 1)
  }

  /** A type merged into a specification: merged into the first type with the
      same `ty`, or appended; nothing but the type list changes. */
  function MergeTypeIntoSpec(t: ZngurType, spec: ZngurSpec): (r: (ZngurSpec, MergeResult))
    ensures r.0 == spec.(types := r.0.types)
    ensures FindType(spec.types, t.ty).None? ==> r == (spec.(types := spec.types + [t]), OK)
    ensures FindType(spec.types, t.ty).Some? ==>
              |r.0.types| == |spec.types| && r.0.types[FindType(spec.types, t.ty).value].ty == t.ty
    ensures FindType(spec.types, t.ty).Some? ==>
              var j := FindType(spec.types, t.ty).value;
              r == (spec.(types := spec.types[j := MergeType(t, spec.types[j]).0]), MergeType(t, spec.types[j]).1)
    ensures forall i :: 0 <= i < |spec.types| ==> r.0.types[i].ty == spec.types[i].ty
  {
    match FindType(spec.types, t.ty)
    case Some(j) =>
      var (merged, res) := MergeType(t, spec.types[j]);
      MergeTypeLayout(t, spec.types[j]);
      (spec.(types := spec.types[j := merged]), res)
    case None => (spec.(types := spec.types + [t]), OK)
  }

  predicate TysUnique(types: seq<ZngurType>) {
    forall i, j :: 0 <= i < j < |types| ==> types[i].ty != types[j].ty
  }

  /** Merging types into a specification never creates two entries for one Rust type. */
  lemma MergeTypeIntoSpecUnique(t: ZngurType, spec: ZngurSpec)
    requires TysUnique(spec.types)
    ensures TysUnique(MergeTypeIntoSpec(t, spec).0.types)
  {
    var r := MergeTypeIntoSpec(t, spec).0;
    if FindType(spec.types, t.ty).None? {
      assert r.types == spec.types + [t];
    }
  }

  /** A trait is merged into the trait map under its own `tr`. */
  function MergeTraitIntoSpec(t: ZngurTrait, spec: ZngurSpec): (r: (ZngurSpec, MergeResult))
    ensures r.0 == spec.(traits := r.0.traits)
    ensures FindEntry(spec.traits, t.tr).None? ==> r.0.traits == spec.traits + [Entry(t.tr, t)]
    ensures FindEntry(spec.traits, t.tr).Some? ==>
              var j := FindEntry(spec.traits, t.tr).value;
              r.0.traits == spec.traits[j := Entry(t.tr, MergeTraitMethods(t, spec.traits[j].value).0)]
  {
    MergeEntriesSingle(Entry(t.tr, t), spec.traits, MergeTraitMethods);
    var (m, res) := MergeEntries([Entry(t.tr, t)], spec.traits, MergeTraitMethods);
    (spec.(traits := m), res)
  }

  /** Merging a trait always succeeds, keeps existing traits in order, and makes `tr` a key. */
  lemma MergeTraitIntoSpecLaws(t: ZngurTrait, spec: ZngurSpec)
    ensures MergeTraitIntoSpec(t, spec).1 == OK
    ensures Keys(spec.traits) <= Keys(MergeTraitIntoSpec(t, spec).0.traits)
    ensures t.tr in Keys(MergeTraitIntoSpec(t, spec).0.traits)
    ensures NoDup(Keys(spec.traits)) ==> NoDup(Keys(MergeTraitIntoSpec(t, spec).0.traits))
    ensures FindEntry(spec.traits, t.tr).Some? ==>
              var j := FindEntry(spec.traits, t.tr).value;
              var merged := MergeTraitIntoSpec(t, spec).0.traits[j].value;
              && spec.traits[j].value.methods <= merged.methods
              && forall m :: m in merged.methods <==> m in spec.traits[j].value.methods || m in t.methods
  {
    MergeEntriesLaws([Entry(t.tr, t)], spec.traits, MergeTraitMethods);
    MergeEntriesSingle(Entry(t.tr, t), spec.traits, MergeTraitMethods);
    if FindEntry(spec.traits, t.tr).Some? {
      var j := FindEntry(spec.traits, t.tr).value;
      UnionLaws(t.methods, spec.traits[j].value.methods);
    }
  }

  function MergeFnIntoSpec(f: ZngurFn, spec: ZngurSpec): (r: (ZngurSpec, MergeResult))
    ensures r.1 == OK && r.0 == spec.(funcs := r.0.funcs)
    ensures f in r.0.funcs && spec.funcs <= r.0.funcs && (f in spec.funcs ==> r.0 == spec)
  {
    (spec.(funcs := PushUnique(f, spec.funcs)), OK)
  }

  function MergeExternCppFnIntoSpec(f: ZngurExternCppFn, spec: ZngurSpec): (r: (ZngurSpec, MergeResult))
    ensures r.1 == OK && r.0 == spec.(externCppFuncs := r.0.externCppFuncs)
    ensures f in r.0.externCppFuncs && spec.externCppFuncs <= r.0.externCppFuncs && (f in spec.externCppFuncs ==> r.0 == spec)
  {
    (spec.(externCppFuncs := PushUnique(f, spec.externCppFuncs)), OK)
  }

  function MergeExternCppImplIntoSpec(i: ZngurExternCppImpl, spec: ZngurSpec): (r: (ZngurSpec, MergeResult))
    ensures r.1 == OK && r.0 == spec.(externCppImpls := r.0.externCppImpls)
    ensures i in r.0.externCppImpls && spec.externCppImpls <= r.0.externCppImpls && (i in spec.externCppImpls ==> r.0 == spec)
  {
    (spec.(externCppImpls := PushUnique(i, spec.externCppImpls)), OK)
  }

  function MergeAdditionalIncludes(text: string, spec: ZngurSpec): (r: (ZngurSpec, MergeResult))
    ensures r.1 == OK && r.0 == spec.(additionalIncludes := r.0.additionalIncludes)
    ensures |r.0.additionalIncludes| == |spec.additionalIncludes| + |text|
    ensures spec.additionalIncludes <= r.0.additionalIncludes && r.0.additionalIncludes[|spec.additionalIncludes|..] == text
  {
    (spec.(additionalIncludes := spec.additionalIncludes + text), OK)
  }

  function MergeConvertPanicToException(flag: bool, spec: ZngurSpec): (r: (ZngurSpec, MergeResult))
    ensures r.1 == OK && r.0 == spec.(convertPanicToException := r.0.convertPanicToException)
    ensures r.0.convertPanicToException <==> spec.convertPanicToException || flag
  {
    (spec.(convertPanicToException := spec.convertPanicToException || flag), OK)
  }

  /** The panic flag merge is idempotent, and push-unique merges are idempotent. */
  lemma SpecMergesIdempotent(f: ZngurFn, flag: bool, spec: ZngurSpec)
    ensures var s1 := MergeConvertPanicToException(flag, spec).0; MergeConvertPanicToException(flag, s1).0 == s1
    ensures var s1 := MergeFnIntoSpec(f, spec).0; MergeFnIntoSpec(f, s1).0 == s1
  {
  }
}
