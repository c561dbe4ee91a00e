/** The two C++ implementations of Rust's `Iterator<Item = i32>` in the simple
    examples: one walks a vector forward with a position, the other pops the
    vector from the back. */
module Iterators {
  import opened Wrappers
  import opened SeqUtil

  /** `VectorIterator<T>` of `examples/simple/main.cpp`. */
  class VectorIterator {
    const vec: seq<int>
    var pos: nat

    ghost predicate Valid()
      reads this
    {
      pos <= |vec|
    }

    constructor(v: seq<int>)
      ensures Valid() && vec == v && pos == 0
    {
      vec := v;
      pos := 0;
    }

    /** `next`: the element at `pos`, moving on; `None` at the end, staying
        there. */
    method Next() returns (r: Option<int>)
      requires Valid()
      modifies this
      ensures Valid()
      ensures old(pos) == |vec| ==> r == None && pos == old(pos)
      ensures old(pos) < |vec| ==> r == Some(vec[old(pos)]) && pos == old(pos) + 1
    {
      if pos >= |vec| {
        return None;
      }
      r := Some(vec[pos]);
      pos := pos + 1;
    }
  }

  /** Draining an iterator with `next` until `None`, as `collect_vec` does:
      the elements not yet produced, in vector order, then `None` for good. */
  method DrainForward(it: VectorIterator) returns (out: seq<int>)
    requires it.Valid()
    modifies it
    ensures it.Valid() && it.pos == |it.vec|
    ensures out == old(it.vec[it.pos..])
  {
    out := [];
    while true
      invariant it.Valid()
      invariant out + it.vec[it.pos..] == old(it.vec[it.pos..])
      decreases |it.vec| - it.pos
    {
      ghost var before := it.pos;
      var r := it.Next();
      if r.None? {
        assert it.vec[it.pos..] == [];
        assert out + [] == out;
        return;
      }
      assert it.vec[before..] == [r.value] + it.vec[it.pos..];
      out := out + [r.value];
    }
  }

  /** `Impl<std::vector<int32_t>, Iterator<i32>>::next` of
      `simple-example/main.cpp`. */
  class PoppingIterator {
    var vec: seq<int>

    constructor(v: seq<int>)
      ensures vec == v
    {
      vec := v;
    }

    /** `next`: `None` on an empty vector, otherwise the last element, which
        is removed. */
    method Next() returns (r: Option<int>)
      modifies this
      ensures old(vec) == [] ==> r == None && vec == []
      ensures old(vec) != [] ==> r == Some(old(vec)[|old(vec)| - 1]) && vec == old(vec)[..|old(vec)| - 1]
    {
      if |vec| == 0 {
        return None;
      }
      r := Some(vec[|vec| - 1]);
      vec := vec[..|vec| - 1];
    }
  }

  /** Draining it yields the elements in reverse order and leaves it empty. */
  method DrainBackward(it: PoppingIterator) returns (out: seq<int>)
    modifies it
    ensures it.vec == []
    ensures out == Reverse(old(it.vec))
  {
    out := [];
    while true
      invariant out + Reverse(it.vec) == Reverse(old(it.vec))
      decreases |it.vec|
    {
      ghost var before := it.vec;
      var r := it.Next();
      if r.None? {
        assert Reverse(it.vec) == [];
        assert out + [] == out;
        return;
      }
      assert before == it.vec + [r.value];
      ReverseAppend(it.vec, [r.value]);
      assert Reverse([r.value]) == [r.value];
      out := out + [r.value];
    }
  }
}
