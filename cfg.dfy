/**
 * `cfg!` configuration providers and the evaluation of `#if` / `#match`
 * conditions against them (zngur-parser/src/cfg.rs).
 */
module Cfg {
  import opened Wrappers
  import opened StrUtil
  import opened SeqUtil
  import opened ZngurDef
  import ZngurMerge

  /** Rust's `usize::MAX + 1` on the 64-bit hosts the parser runs on. */
  const USIZE_BOUND: nat := 0x1_0000_0000_0000_0000

  /** The two providers: `NullCfg` and an in-memory key → values table. */
  datatype CfgProvider = NullCfg | InMemory(cfg: map<string, seq<string>>)

  function GetCfg(p: CfgProvider, key: string): (r: Option<seq<string>>)
    ensures p.NullCfg? ==> r.None?
    ensures p.InMemory? ==> (r.Some? <==> key in p.cfg)
    ensures p.InMemory? && key in p.cfg ==> r == Some(p.cfg[key])
  {
    match p
    case NullCfg => None
    case InMemory(cfg) => if key in cfg then Some(cfg[key]) else None
  }

  function GetFeatures(p: CfgProvider): (r: seq<string>)
    ensures p.NullCfg? ==> r == []
    ensures p.InMemory? ==> r == (if "feature" in p.cfg then p.cfg["feature"] else [])
  {
    match GetCfg(p, "feature")
    case Some(v) => v
    case None => []
  }

  /** One `(key, values)` argument of `with_values`. */
  datatype CfgValues = CfgValues(key: string, values: seq<string>)

  /** The entry for `key` after `with_values` adds `values` to it. */
  function AddToEntry(cfg: map<string, seq<string>>, key: string, values: seq<string>): map<string, seq<string>>
  {
    cfg[key := ZngurMerge.Union(values, if key in cfg then cfg[key] else [])]
  }

  /** `with_values`, as a function of the table before the call. */
  function WithValuesSpec(cfg: map<string, seq<string>>, pairs: seq<CfgValues>): map<string, seq<string>>
    decreases |pairs|
  {
    if |pairs| == 0 then cfg
    else WithValuesSpec(AddToEntry(cfg, pairs[0].key, pairs[0].values), pairs[1..])
  }

  /** `with_values`: for each pair, append every value not yet stored under the key. */
  method WithValues(cfg: map<string, seq<string>>, pairs: seq<CfgValues>) returns (r: map<string, seq<string>>)
    ensures r == WithValuesSpec(cfg, pairs)
  {
    r := cfg;
    var i := 0;
    while i < |pairs|
      invariant 0 <= i <= |pairs|
      invariant WithValuesSpec(r, pairs[i..]) == WithValuesSpec(cfg, pairs)
    {
      assert pairs[i..][1..] == pairs[i + 1..];
      var key := pairs[i].key;
      var values := pairs[i].values;
      var entry := if key in r then r[key] else [];
      ghost var entry0 := entry;
      var j := 0;
      while j < |values|
        invariant 0 <= j <= |values|
        invariant ZngurMerge.Union(values[j..], entry) == ZngurMerge.Union(values, entry0)
      {
        assert values[j..][1..] == values[j + 1..];
        if values[j] !in entry {
          entry := entry + [values[j]];
        }
        j := j + 1;
      }
      assert values[|values|..] == [];
      r := r[key := entry];
      i := i + 1;
    }
    assert pairs[|pairs|..] == [];
  }

  function PairKeys(pairs: seq<CfgValues>): set<string> {
    set i | 0 <= i < |pairs| :: pairs[i].key
  }

  /** `with_values` never stores a duplicate and keeps what was stored
      before in place, as a prefix of the new entry. */
  lemma {:induction false} WithValuesKeeps(cfg: map<string, seq<string>>, pairs: seq<CfgValues>)
    requires forall k :: k in cfg ==> NoDup(cfg[k])
    ensures var r := WithValuesSpec(cfg, pairs);
            && (forall k :: k in r ==> NoDup(r[k]))
            && (forall k :: k in cfg ==> k in r && cfg[k] <= r[k])
    decreases |pairs|
  {
    if |pairs| > 0 {
      var k0 := pairs[0].key;
      var old0 := if k0 in cfg then cfg[k0] else [];
      ZngurMerge.UnionLaws(pairs[0].values, old0);
      var next := AddToEntry(cfg, k0, pairs[0].values);
      WithValuesKeeps(next, pairs[1..]);
      var r := WithValuesSpec(next, pairs[1..]);
      forall k | k in cfg ensures k in r && cfg[k] <= r[k] {
        assert cfg[k] <= next[k];
      }
    }
  }

  /** Every given value is stored under its key, and a value already stored
      stays stored. */
  lemma {:induction false} WithValuesStores(cfg: map<string, seq<string>>, pairs: seq<CfgValues>)
    ensures var r := WithValuesSpec(cfg, pairs);
            && (forall k, v :: k in cfg && v in cfg[k] ==> k in r && v in r[k])
            && (forall i, v :: 0 <= i < |pairs| && v in pairs[i].values ==> pairs[i].key in r && v in r[pairs[i].key])
    decreases |pairs|
  {
    if |pairs| > 0 {
      var k0 := pairs[0].key;
      var old0 := if k0 in cfg then cfg[k0] else [];
      ZngurMerge.UnionLaws(pairs[0].values, old0);
      var next := AddToEntry(cfg, k0, pairs[0].values);
      assert forall v :: v in pairs[0].values ==> v in next[k0];
      assert forall k, v :: k in cfg && v in cfg[k] ==> k in next && v in next[k];
      WithValuesStores(next, pairs[1..]);
      var r := WithValuesSpec(next, pairs[1..]);
      forall i, v | 0 <= i < |pairs| && v in pairs[i].values
        ensures pairs[i].key in r && v in r[pairs[i].key]
      {
        if i == 0 {
          assert v in next[k0];
        } else {
          assert pairs[1..][i - 1] == pairs[i];
        }
      }
    }
  }

  /** The keys after `with_values` are the old keys plus the given ones. */
  lemma {:induction false} WithValuesKeys(cfg: map<string, seq<string>>, pairs: seq<CfgValues>)
    ensures WithValuesSpec(cfg, pairs).Keys == cfg.Keys + PairKeys(pairs)
    decreases |pairs|
  {
    if |pairs| > 0 {
      var k0 := pairs[0].key;
      WithValuesKeys(AddToEntry(cfg, k0, pairs[0].values), pairs[1..]);
      assert PairKeys(pairs) == {k0} + PairKeys(pairs[1..]) by {
        forall k | k in PairKeys(pairs) ensures k in {k0} + PairKeys(pairs[1..]) {
          var i :| 0 <= i < |pairs| && pairs[i].key == k;
          if i > 0 { assert pairs[1..][i - 1].key == k; }
        }
        forall k | k in PairKeys(pairs[1..]) ensures k in PairKeys(pairs) {
          var i :| 0 <= i < |pairs[1..]| && pairs[1..][i].key == k;
          assert pairs[i + 1].key == k;
        }
      }
    }
  }

  /** The pairs one key contributes to `get_cfg_pairs`. */
  function KeyPairs(key: string, values: seq<string>): (r: seq<CfgPair>)
  {
    if |values| == 0 then [CfgPair(key, None)]
    else [CfgPair(key, Some(values[0]))] + (if |values| == 1 then [] else KeyPairs(key, values[1..]))
  }

  /** `get_cfg_pairs`; `order` is the iteration order of the hash map, a
      listing of its keys. */
  function GetCfgPairs(p: CfgProvider, order: seq<string>): (r: seq<CfgPair>)
    requires p.InMemory? ==> forall k :: k in order ==> k in p.cfg
  {
    match p
    case NullCfg => []
    case InMemory(cfg) =>
      if |order| == 0 then [] else KeyPairs(order[0], cfg[order[0]]) + GetCfgPairs(p, order[1..])
  }

  lemma {:induction false} KeyPairsMembers(key: string, values: seq<string>, pr: CfgPair)
    ensures pr in KeyPairs(key, values) <==>
              pr.key == key &&
              (if |values| == 0 then pr.value.None? else pr.value.Some? && pr.value.value in values)
    decreases |values|
  {
    if |values| > 1 {
      KeyPairsMembers(key, values[1..], pr);
      if pr.value.Some? && pr.value.value in values && pr.value.value != values[0] {
        assert pr.value.value in values[1..];
      }
    }
  }

  /** A key with no values yields `(key, None)`, otherwise one `(key, Some v)`
      per value; `NullCfg` yields nothing. */
  lemma {:induction false} GetCfgPairsMembers(p: CfgProvider, order: seq<string>, pr: CfgPair)
    requires p.InMemory? ==> forall k :: k in order ==> k in p.cfg
    ensures p.NullCfg? ==> GetCfgPairs(p, order) == []
    ensures p.InMemory? ==>
              (pr in GetCfgPairs(p, order) <==>
                 pr.key in order &&
                 (if |p.cfg[pr.key]| == 0 then pr.value.None? else pr.value.Some? && pr.value.value in p.cfg[pr.key]))
    decreases |order|
  {
    if p.InMemory? && |order| > 0 {
      KeyPairsMembers(order[0], p.cfg[order[0]], pr);
      GetCfgPairsMembers(p, order[1..], pr);
      if pr.key in order && pr.key != order[0] {
        assert pr.key in order[1..];
      }
    }
  }

  /** What a `cfg!(...)` names (the mapping of its one or two dotted segments). */
  datatype CfgScrutinee = Key(key: string) | KeyWithItem(key: string, item: string) | Feature(feature: string) | AllFeatures

  /** `CfgScrutinee::parser`'s mapping of `a` / `a.b` onto a scrutinee. */
  function ScrutineeOf(segments: seq<string>): (r: CfgScrutinee)
    requires 1 <= |segments| <= 2
    ensures segments[0] == "feature" ==> (if |segments| == 1 then r == AllFeatures else r == Feature(segments[1]))
    ensures segments[0] != "feature" ==>
              (if |segments| == 1 then r == Key(segments[0]) else r == KeyWithItem(segments[0], segments[1]))
  {
    if |segments| == 1 then (if segments[0] == "feature" then AllFeatures else Key(segments[0]))
    else if segments[0] == "feature" then Feature(segments[1])
    else KeyWithItem(segments[0], segments[1])
  }

  datatype ProcessedScrutinee = ScrEmpty | ScrSome | ScrValues(values: seq<string>)
  datatype ProcessedConditional = PSingle(s: ProcessedScrutinee) | PTuple(ss: seq<ProcessedScrutinee>)
  datatype CfgConditional = CondSingle(key: CfgScrutinee) | CondTuple(keys: seq<CfgScrutinee>)

  /** The scrutinee evaluation closure of `eval`. */
  function Process(p: CfgProvider, key: CfgScrutinee): (r: ProcessedScrutinee)
    ensures key.Key? ==>
              (GetCfg(p, key.key).None? ==> r == ScrEmpty) &&
              (GetCfg(p, key.key) == Some([]) ==> r == ScrSome) &&
              (GetCfg(p, key.key).Some? && GetCfg(p, key.key) != Some([]) ==> r == ScrValues(GetCfg(p, key.key).value))
    ensures key.KeyWithItem? ==>
              (r == ScrSome <==> GetCfg(p, key.key).Some? && key.item in GetCfg(p, key.key).value) &&
              (r == ScrSome || r == ScrEmpty)
    ensures key.Feature? ==> (r == ScrSome <==> key.feature in GetFeatures(p)) && (r == ScrSome || r == ScrEmpty)
    ensures key.AllFeatures? ==> r == ScrValues(GetFeatures(p))
  {
    match key
    case Key(k) =>
      (match GetCfg(p, k)
       case Some(values) => if |values| == 0 then ScrSome else ScrValues(values)
       case None => ScrEmpty)
    case KeyWithItem(k, item) =>
      (match GetCfg(p, k)
       case Some(values) => if item in values then ScrSome else ScrEmpty
       case None => ScrEmpty)
    case AllFeatures => ScrValues(GetFeatures(p))
    case Feature(f) => if f in GetFeatures(p) then ScrSome else ScrEmpty
  }

  function ProcessAll(p: CfgProvider, keys: seq<CfgScrutinee>): (r: seq<ProcessedScrutinee>)
    ensures |r| == |keys| && forall i :: 0 <= i < |keys| ==> r[i] == Process(p, keys[i])
  {
    if |keys| == 0 then [] else [Process(p, keys[0])] + ProcessAll(p, keys[1..])
  }

  function ProcessConditional(p: CfgProvider, c: CfgConditional): ProcessedConditional {
    match c
    case CondSingle(k) => PSingle(Process(p, k))
    case CondTuple(ks) => PTuple(ProcessAll(p, ks))
  }

  /** One pattern atom: `_`, `Some`, `None`, a string or a number. */
  datatype CfgPatternItem = AnyItem | SomeItem | NoneItem | StrItem(s: string) | NumberItem(n: nat)

  datatype CfgPattern =
    | PatSingle(item: CfgPatternItem)
    | PatAnd(pats: seq<CfgPattern>)
    | PatOr(pats: seq<CfgPattern>)
    | PatNot(pat: CfgPattern)
    | PatGrouped(pat: CfgPattern)
    | PatTuple(pats: seq<CfgPattern>)

  /** Some value parses as the `usize` `n`. */
  predicate SomeParsesTo(values: seq<string>, n: nat) {
    exists i :: 0 <= i < |values| && ParseUnsigned(values[i], USIZE_BOUND) == Some(n)
  }

  function AnyParsesTo(values: seq<string>, n: nat): (r: bool)
    ensures r <==> SomeParsesTo(values, n)
  {
    if |values| == 0 then false
    else if ParseUnsigned(values[0], USIZE_BOUND) == Some(n) then true
    else
      var rest := AnyParsesTo(values[1..], n);
      assert SomeParsesTo(values, n) ==> SomeParsesTo(values[1..], n) by {
        if SomeParsesTo(values, n) {
          var i :| 0 <= i < |values| && ParseUnsigned(values[i], USIZE_BOUND) == Some(n);
          assert values[1..][i - 1] == values[i];
        }
      }
      assert SomeParsesTo(values[1..], n) ==> SomeParsesTo(values, n) by {
        if SomeParsesTo(values[1..], n) {
          var i :| 0 <= i < |values[1..]| && ParseUnsigned(values[1..][i], USIZE_BOUND) == Some(n);
          assert values[i + 1] == values[1..][i];
        }
      }
      rest
  }

  /** `CfgPatternItem::matches`. */
  function ItemMatches(item: CfgPatternItem, s: ProcessedScrutinee): (r: bool)
    ensures item.AnyItem? ==> r
    ensures item.SomeItem? ==> (r <==> !s.ScrEmpty?)
    ensures item.NoneItem? ==> (r <==> s.ScrEmpty?)
    ensures item.StrItem? ==> (r <==> s.ScrValues? && item.s in s.values)
    ensures item.NumberItem? ==> (r <==> s.ScrValues? && SomeParsesTo(s.values, item.n))
  {
    match item
    case AnyItem => true
    case SomeItem => !s.ScrEmpty?
    case NoneItem => s.ScrEmpty?
    case StrItem(v) => (match s case ScrValues(values) => v in values case _ => false)
    case NumberItem(n) => (match s case ScrValues(values) => AnyParsesTo(values, n) case _ => false)
  }

  /** Whether a pattern matched, and the errors reported while matching. */
  datatype MatchOutcome = MatchOutcome(matched: bool, errors: seq<string>)

  const TUPLE_VS_SINGLE := "Can not match tuple pattern against a single cfg value."
  const SINGLE_VS_TUPLE := "Can not match single pattern against multiple cfg values."
  const ARITY_MISMATCH := "Number of patterns and number of scrutinees do not match."

  /** Every error is one of the three shape mismatches. */
  predicate ShapeErrors(errors: seq<string>) {
    forall i :: 0 <= i < |errors| ==> errors[i] in {TUPLE_VS_SINGLE, SINGLE_VS_TUPLE, ARITY_MISMATCH}
  }

  /** `CfgPattern::matches`; errors accumulate in evaluation order, and the
      `all` / `any` iterations stop at the first deciding element. The only
      errors are shape mismatches: a single item against a single value
      never reports one, and decides by `ItemMatches`. */
  function Matches(pat: CfgPattern, s: ProcessedConditional): (r: MatchOutcome)
    ensures ShapeErrors(r.errors)
    ensures pat.PatSingle? && s.PSingle? ==> r.errors == [] && (r.matched <==> ItemMatches(pat.item, s.s))
    ensures pat.PatSingle? && s.PTuple? && |s.ss| != 1 ==> (r.matched <==> pat.item.AnyItem?) && (r.errors == [] <==> pat.item.AnyItem?)
    ensures pat.PatTuple? && s.PTuple? && |pat.pats| != |s.ss| ==> !r.matched && r.errors == [ARITY_MISMATCH]
    decreases pat, 1
  {
    match (pat, s)
    case (PatTuple(pats), PSingle(_)) =>
      if |pats| == 1 then Matches(pats[0], s)
      else MatchOutcome(false, [TUPLE_VS_SINGLE])
    case (PatSingle(item), PTuple(ss)) =>
      if |ss| == 1 then MatchOutcome(ItemMatches(item, ss[0]), [])
      else if item.AnyItem? then MatchOutcome(true, [])
      else MatchOutcome(false, [SINGLE_VS_TUPLE])
    case (PatTuple(pats), PTuple(ss)) =>
      if |ss| != |pats| then MatchOutcome(false, [ARITY_MISMATCH])
      else MatchTuple(pats, ss)
    case (_, PTuple(_)) => MatchOutcome(false, [SINGLE_VS_TUPLE])
    case (PatSingle(item), PSingle(sc)) => MatchOutcome(ItemMatches(item, sc), [])
    case (PatGrouped(p), PSingle(_)) => Matches(p, s)
    case (PatNot(p), PSingle(_)) =>
      var o := Matches(p, s);
      MatchOutcome(!o.matched, o.errors)
    case (PatAnd(pats), PSingle(_)) => MatchAll(pats, s)
    case (PatOr(pats), PSingle(_)) => MatchAny(pats, s)
  }

  function MatchAll(pats: seq<CfgPattern>, s: ProcessedConditional): (r: MatchOutcome)
    ensures ShapeErrors(r.errors)
    decreases pats, 0
  {
    if |pats| == 0 then MatchOutcome(true, [])
    else
      var first := Matches(pats[0], s);
      if !first.matched then first
      else
        var rest := MatchAll(pats[1..], s);
        MatchOutcome(rest.matched, first.errors + rest.errors)
  }

  function MatchAny(pats: seq<CfgPattern>, s: ProcessedConditional): (r: MatchOutcome)
    ensures ShapeErrors(r.errors)
    decreases pats, 0
  {
    if |pats| == 0 then MatchOutcome(false, [])
    else
      var first := Matches(pats[0], s);
      if first.matched then first
      else
        var rest := MatchAny(pats[1..], s);
        MatchOutcome(rest.matched, first.errors + rest.errors)
  }

  /** Element-wise matching of equally long tuples, each element as a single. */
  function MatchTuple(pats: seq<CfgPattern>, ss: seq<ProcessedScrutinee>): (r: MatchOutcome)
    requires |pats| == |ss|
    ensures ShapeErrors(r.errors)
    decreases pats, 0
  {
    if |pats| == 0 then MatchOutcome(true, [])
    else
      var first := Matches(pats[0], PSingle(ss[0]));
      if !first.matched then first
      else
        var rest := MatchTuple(pats[1..], ss[1..]);
        MatchOutcome(rest.matched, first.errors + rest.errors)
  }

  lemma {:induction false} MatchAllIsAll(pats: seq<CfgPattern>, s: ProcessedConditional)
    ensures MatchAll(pats, s).matched <==> forall i :: 0 <= i < |pats| ==> Matches(pats[i], s).matched
    decreases |pats|
  {
    if |pats| > 0 {
      MatchAllIsAll(pats[1..], s);
      assert forall i :: 1 <= i < |pats| ==> pats[i] == pats[1..][i - 1];
    }
  }

  lemma {:induction false} MatchAnyIsAny(pats: seq<CfgPattern>, s: ProcessedConditional)
    ensures MatchAny(pats, s).matched <==> exists i :: 0 <= i < |pats| && Matches(pats[i], s).matched
    decreases |pats|
  {
    if |pats| > 0 {
      MatchAnyIsAny(pats[1..], s);
      assert forall i :: 1 <= i < |pats| ==> pats[i] == pats[1..][i - 1];
    }
  }

  lemma {:induction false} MatchTupleIsPointwise(pats: seq<CfgPattern>, ss: seq<ProcessedScrutinee>)
    requires |pats| == |ss|
    ensures MatchTuple(pats, ss).matched <==> forall i :: 0 <= i < |pats| ==> Matches(pats[i], PSingle(ss[i])).matched
    decreases |pats|
  {
    if |pats| > 0 {
      MatchTupleIsPointwise(pats[1..], ss[1..]);
      assert forall i :: 1 <= i < |pats| ==> pats[i] == pats[1..][i - 1] && ss[i] == ss[1..][i - 1];
    }
  }

  /** On a single scrutinee: `!` negates, `&` needs every operand, `|` any
      operand, and parentheses are transparent. */
  lemma CombinatorsOnSingle(pats: seq<CfgPattern>, p: CfgPattern, sc: ProcessedScrutinee)
    ensures Matches(PatNot(p), PSingle(sc)).matched == !Matches(p, PSingle(sc)).matched
    ensures Matches(PatGrouped(p), PSingle(sc)) == Matches(p, PSingle(sc))
    ensures Matches(PatAnd(pats), PSingle(sc)).matched <==>
              forall i :: 0 <= i < |pats| ==> Matches(pats[i], PSingle(sc)).matched
    ensures Matches(PatOr(pats), PSingle(sc)).matched <==>
              exists i :: 0 <= i < |pats| && Matches(pats[i], PSingle(sc)).matched
  {
    MatchAllIsAll(pats, PSingle(sc));
    MatchAnyIsAny(pats, PSingle(sc));
  }

  /** Tuple against tuple: unequal lengths are an error and fail; equal
      lengths match element by element. */
  lemma TupleAgainstTuple(pats: seq<CfgPattern>, ss: seq<ProcessedScrutinee>)
    ensures |pats| != |ss| ==> Matches(PatTuple(pats), PTuple(ss)) == MatchOutcome(false, [ARITY_MISMATCH])
    ensures |pats| == |ss| ==>
              (Matches(PatTuple(pats), PTuple(ss)).matched <==>
                 forall i :: 0 <= i < |pats| ==> Matches(pats[i], PSingle(ss[i])).matched)
  {
    if |pats| == |ss| {
      MatchTupleIsPointwise(pats, ss);
    }
  }

  /** One-element tuples are unwrapped on either side, `_` matches any tuple,
      and any other single pattern against a longer tuple is an error. */
  lemma SingletonTuples(p: CfgPattern, item: CfgPatternItem, sc: ProcessedScrutinee, ss: seq<ProcessedScrutinee>)
    ensures Matches(PatTuple([p]), PSingle(sc)) == Matches(p, PSingle(sc))
    ensures Matches(PatSingle(item), PTuple([sc])).matched == ItemMatches(item, sc)
    ensures Matches(PatSingle(AnyItem), PTuple(ss)).matched
    ensures |ss| != 1 && !item.AnyItem? ==> Matches(PatSingle(item), PTuple(ss)) == MatchOutcome(false, [SINGLE_VS_TUPLE])
    ensures |ss| != 1 && !p.PatSingle? && !p.PatTuple? ==> Matches(p, PTuple(ss)) == MatchOutcome(false, [SINGLE_VS_TUPLE])
  {
  }

  /** `CfgConditional::eval`. */
  function EvalConditional(c: CfgConditional, pat: CfgPattern, p: CfgProvider): MatchOutcome {
    Matches(pat, ProcessConditional(p, c))
  }

  /** Under `NullCfg` every key and feature is absent, so `cfg!(k)` matches
      exactly the `None` and `_` atoms. */
  lemma NullCfgAtoms(k: CfgScrutinee, item: CfgPatternItem)
    requires !k.AllFeatures?
    ensures EvalConditional(CondSingle(k), PatSingle(item), NullCfg).matched <==> item.AnyItem? || item.NoneItem?
  {
  }
}
