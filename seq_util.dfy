/** Sequence helpers: duplicate-freedom and first-match search. */
module SeqUtil {
  import opened Wrappers

  predicate NoDup<T(==)>(v: seq<T>) {
    forall i, j :: 0 <= i < j < |v| ==> v[i] != v[j]
  }

  /** Index of the first element satisfying `p` (`Iterator::position`). */
  function FindFirst<T>(v: seq<T>, p: T -> bool): (r: Option<nat>)
    ensures r.Some? ==> r.value < |v| && p(v[r.value]) && forall j :: 0 <= j < r.value ==> !p(v[j])
    ensures r.None? ==> forall j :: 0 <= j < |v| ==> !p(v[j])
  {
    FindFirstFrom(v, p, 0)
  }

  /** The first match is the one with no match before it. */
  lemma FindFirstIs<T>(v: seq<T>, p: T -> bool, i: nat)
    requires i < |v| && p(v[i]) && forall j | 0 <= j < i :: !p(v[j])
    ensures FindFirst(v, p) == Some(i)
  {
  }

  function FindFirstFrom<T>(v: seq<T>, p: T -> bool, from: nat): (r: Option<nat>)
    requires from <= |v|
    ensures r.Some? ==> from <= r.value < |v| && p(v[r.value]) && forall j :: from <= j < r.value ==> !p(v[j])
    ensures r.None? ==> forall j :: from <= j < |v| ==> !p(v[j])
    decreases |v| - from
  {
    if from == |v| then None else if p(v[from]) then Some(from) else FindFirstFrom(v, p, from + 1)
  }

  function MapSeq<A, B>(v: seq<A>, f: A -> B): (r: seq<B>)
    ensures |r| == |v| && forall i :: 0 <= i < |v| ==> r[i] == f(v[i])
  {
    seq(|v|, i requires 0 <= i < |v| => f(v[i]))
  }

  function FilterSeq<T>(v: seq<T>, p: T -> bool): (r: seq<T>)
    ensures |r| <= |v|
    ensures forall x :: x in r ==> x in v && p(x)
    decreases |v|
  {
    if |v| == 0 then [] else (if p(v[0]) then [v[0]] else []) + FilterSeq(v[1..], p)
  }

  function Flatten<T>(vs: seq<seq<T>>): seq<T>
    decreases |vs|
  {
    if |vs| == 0 then [] else vs[0] + Flatten(vs[1..])
  }

  /** The elements in the opposite order (`Vec::reverse`). */
  function Reverse<T>(v: seq<T>): (r: seq<T>)
    ensures |r| == |v| && forall i :: 0 <= i < |v| ==> r[i] == v[|v| - 1 - i]
  {
    seq(|v|, i requires 0 <= i < |v| => v[|v| - 1 - i])
  }

  lemma ReverseReverse<T>(a: seq<T>)
    ensures Reverse(Reverse(a)) == a
  {
    var rr := Reverse(Reverse(a));
    assert forall i | 0 <= i < |a| :: rr[i] == a[i];
  }

  lemma ReverseAppend<T>(a: seq<T>, b: seq<T>)
    ensures Reverse(a + b) == Reverse(b) + Reverse(a)
  {
    var ab := a + b;
    var l, r := Reverse(ab), Reverse(b) + Reverse(a);
    forall i | 0 <= i < |l|
      ensures l[i] == r[i]
    {
      if i < |b| {
        assert l[i] == ab[|ab| - 1 - i] == b[|b| - 1 - i];
      } else {
        assert l[i] == ab[|ab| - 1 - i] == a[|a| - 1 - (i - |b|)];
      }
    }
  }

  /** A prefix one longer is the prefix and the next element. */
  lemma PrefixSnoc<T>(s: seq<T>, i: nat)
    requires i < |s|
    ensures s[..i + 1] == s[..i] + [s[i]]
  {
  }

  lemma AppendAssoc<T>(a: seq<T>, b: seq<T>, c: seq<T>)
    ensures a + b + c == a + (b + c)
  {
  }

  /** A non-empty sequence is its front and its last element. */
  lemma LastSplit<T>(s: seq<T>)
    requires |s| > 0
    ensures s == s[..|s| - 1] + [s[|s| - 1]]
  {
  }

  /** The head and tail of a concatenation whose left part is non-empty. */
  lemma ConsAppend<T>(xs: seq<T>, ys: seq<T>)
    requires |xs| > 0
    ensures (xs + ys)[0] == xs[0] && (xs + ys)[1..] == xs[1..] + ys
  {
  }

  lemma ConsTail<T>(x: T, rest: seq<T>)
    ensures ([x] + rest)[0] == x && ([x] + rest)[1..] == rest
  {
  }

  lemma AppendEmpty<T>(xs: seq<T>)
    ensures xs + [] == xs && [] + xs == xs
  {
  }

  /** A sequence cut at three points. */
  lemma Split4<T>(s: seq<T>, i: nat, j: nat, k: nat)
    requires i <= j <= k <= |s|
    ensures s == s[..i] + s[i..j] + s[j..k] + s[k..]
  {
  }

  /** The parts of `pre + (mid + post)` read back by slicing. */
  lemma Slices3<T>(pre: seq<T>, mid: seq<T>, post: seq<T>)
    ensures var s := pre + (mid + post);
            s == pre + mid + post && s[..|pre|] == pre && s[|pre| + |mid|..] == post
  {
  }
}
