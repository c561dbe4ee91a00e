/** The benchmark crate: a vector of `0..n` built by pushing, once in Rust and
    once in C++ through the generated `Vec<u64>` bindings, each checked by
    `assert_eq!(5, v[5])` on the Rust side. */
module Benchmark {
  import opened Wrappers

  const U64: nat := 0x1_0000_0000_0000_0000

  /** `v` holds `0, 1, …, n - 1`. */
  ghost predicate IsRange(v: seq<nat>, n: nat) {
    |v| == n && forall i :: 0 <= i < n ==> v[i] == i
  }

  /** Such a vector is strictly increasing, and empty for `n = 0`. */
  lemma RangeIncreasing(v: seq<nat>, n: nat)
    requires IsRange(v, n)
    ensures forall i, j :: 0 <= i < j < |v| ==> v[i] < v[j]
    ensures n == 0 ==> v == []
  {
  }

  /** `assert_eq!(5, v[5])`: an index past the end panics (`None`); within
      range the comparison decides. */
  function CheckFifth(v: seq<nat>): (r: Option<seq<nat>>)
    ensures r.Some? <==> |v| > 5 && v[5] == 5
    ensures r.Some? ==> r.value == v
  {
    if |v| > 5 && v[5] == 5 then Some(v) else None
  }

  /** `build_vec_by_push_rust`: panics exactly when `n <= 5`. */
  method BuildVecByPushRust(n: nat) returns (r: Option<seq<nat>>)
    requires n < U64
    ensures r.Some? <==> n > 5
    ensures r.Some? ==> IsRange(r.value, n)
  {
    var v: seq<nat> := [];
    for i := 0 to n
      invariant IsRange(v, i)
    {
      v := v + [i];
    }
    r := CheckFifth(v);
  }

  /** `build_vec_by_push_cpp` in `impls.cpp`: the same loop over the bound
      `Vec<u64>`, with no check. */
  method BuildVecByPushCpp(n: nat) returns (v: seq<nat>)
    requires n < U64
    ensures IsRange(v, n)
  {
    v := [];
    var i := 0;
    while i < n
      invariant i <= n && IsRange(v, i)
    {
      v := v + [i];
      i := i + 1;
    }
  }

  /** The Rust `build_vec_by_push_cpp`: the C++ vector, then the same check. */
  method BuildVecByPushCppChecked(n: nat) returns (r: Option<seq<nat>>)
    requires n < U64
    ensures r.Some? <==> n > 5
    ensures r.Some? ==> IsRange(r.value, n)
  {
    var v := BuildVecByPushCpp(n);
    r := CheckFifth(v);
  }
}
