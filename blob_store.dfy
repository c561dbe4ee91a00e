/** The cxx demo ported to the generator: a Rust `MultiBuf` yielding chunks, a
    Rust `BlobMetadata` filled in from C++, and the C++ `BlobStore` that
    uploads the chunks, tags blobs and reports their metadata. */
module BlobStore {
  import opened StrUtil

  /** `MultiBuf`: `chunks` never changes, `pos` counts the calls. */
  class MultiBuf {
    const chunks: seq<seq<bv8>>
    var pos: nat

    constructor(chunks: seq<seq<bv8>>)
      ensures this.chunks == chunks && pos == 0
    {
      this.chunks := chunks;
      pos := 0;
    }

    /** `next_chunk`: the chunk at `pos`, or an empty slice past the end; `pos`
        moves on either way. */
    method NextChunk() returns (c: seq<bv8>)
      modifies this`pos
      ensures c == ChunkAt(chunks, old(pos)) && pos == old(pos) + 1
    {
      c := ChunkAt(chunks, pos);
      pos := pos + 1;
    }
  }

  function ChunkAt(chunks: seq<seq<bv8>>, pos: nat): (c: seq<bv8>)
    ensures pos >= |chunks| ==> c == []
    ensures pos < |chunks| ==> c == chunks[pos]
  {
    if pos < |chunks| then chunks[pos] else []
  }

  /** Where `put`'s loop stops: the first position from `pos` on that yields
      an empty chunk. */
  function StopAt(chunks: seq<seq<bv8>>, pos: nat): (r: nat)
    ensures pos <= r && ChunkAt(chunks, r) == []
    ensures forall k :: pos <= k < r ==> ChunkAt(chunks, k) != []
    decreases |chunks| - pos
  {
    if pos >= |chunks| || chunks[pos] == [] then pos else StopAt(chunks, pos + 1)
  }

  /** The bytes `put` collects: the chunks from `pos` on, up to the first
      empty one. */
  function Gather(chunks: seq<seq<bv8>>, pos: nat): seq<bv8>
    decreases |chunks| - pos
  {
    if pos >= |chunks| || chunks[pos] == [] then [] else chunks[pos] + Gather(chunks, pos + 1)
  }

  /** Gathering is concatenating the chunks before the stop. */
  lemma {:induction false} GatherIsConcat(chunks: seq<seq<bv8>>, pos: nat)
    ensures Gather(chunks, pos) == Concat(chunks, pos, StopAt(chunks, pos))
    decreases |chunks| - pos
  {
    if !(pos >= |chunks| || chunks[pos] == []) {
      GatherIsConcat(chunks, pos + 1);
      ConcatFront(chunks, pos, StopAt(chunks, pos));
    }
  }

  function Concat(chunks: seq<seq<bv8>>, lo: nat, hi: nat): seq<bv8>
    requires lo <= hi
    decreases hi - lo
  {
    if lo == hi then [] else Concat(chunks, lo, hi - 1) + ChunkAt(chunks, hi - 1)
  }

  lemma {:induction false} ConcatFront(chunks: seq<seq<bv8>>, lo: nat, hi: nat)
    requires lo < hi
    ensures Concat(chunks, lo, hi) == ChunkAt(chunks, lo) + Concat(chunks, lo + 1, hi)
    decreases hi - lo
  {
    if lo + 1 < hi {
      ConcatFront(chunks, lo, hi - 1);
    }
  }

  /** The Rust side reads a tag through `CStr::from_ptr`: it ends at the first
      NUL. */
  function CStr(s: string): (r: string)
    ensures r <= s && '\0' !in r
    ensures r == s || s[|r|] == '\0'
  {
    if |s| == 0 || s[0] == '\0' then "" else [s[0]] + CStr(s[1..])
  }

  /** Each tag as the Rust side reads it, in order. */
  function CStrs(tags: seq<string>): (r: seq<string>)
    ensures |r| == |tags| && forall i :: 0 <= i < |tags| ==> r[i] == CStr(tags[i])
  {
    if |tags| == 0 then [] else CStrs(tags[..|tags| - 1]) + [CStr(tags[|tags| - 1])]
  }

  /** `BlobMetadata`. */
  class BlobMetadata {
    var size: nat
    var tags: seq<string>

    /** `Default::default()`. */
    constructor Default()
      ensures size == 0 && tags == []
    {
      size := 0;
      tags := [];
    }

    method SetSize(size: nat)
      modifies this`size
      ensures this.size == size
    {
      this.size := size;
    }

    /** `push_tag`: one tag at the end. */
    method PushTag(c: string)
      modifies this`tags
      ensures tags == old(tags) + [CStr(c)]
    {
      tags := tags + [CStr(c)];
    }
  }

  /** A `std::set<std::string>` as its in-order contents. */
  predicate StrictlySorted(v: seq<string>) {
    forall i :: 0 <= i < |v| - 1 ==> LexLe(v[i], v[i + 1]) && v[i] != v[i + 1]
  }

  /** `emplace` into the set. */
  function InsertTag(t: string, v: seq<string>): (r: seq<string>)
    ensures forall x :: x in r <==> x in v || x == t
    ensures |r| > 0 && (r[0] == t || (|v| > 0 && r[0] == v[0]))
    decreases |v|
  {
    if |v| == 0 then [t]
    else if t == v[0] then v
    else if LexLe(t, v[0]) then [t] + v
    else [v[0]] + InsertTag(t, v[1..])
  }

  lemma {:induction false} InsertTagSorted(t: string, v: seq<string>)
    requires StrictlySorted(v)
    ensures StrictlySorted(InsertTag(t, v))
    decreases |v|
  {
    if |v| > 0 && t != v[0] && !LexLe(t, v[0]) {
      LexTotal(t, v[0]);
      InsertTagSorted(t, v[1..]);
    }
  }

  /** In a set, everything after the first element is above it. */
  lemma {:induction false} SortedHeadBelow(v: seq<string>, j: nat)
    requires StrictlySorted(v) && 0 < j < |v|
    ensures LexLe(v[0], v[j]) && v[0] != v[j]
    decreases j
  {
    if j > 1 {
      SortedHeadBelow(v[1..], j - 1);
      LexTrans(v[0], v[1], v[j]);
      if v[0] == v[j] {
        LexAntisym(v[0], v[1]);
      }
    }
  }

  /** A tag already present leaves the set as it was. */
  lemma {:induction false} InsertPresentTag(t: string, v: seq<string>)
    requires StrictlySorted(v) && t in v
    ensures InsertTag(t, v) == v
    decreases |v|
  {
    if t != v[0] {
      var j :| 0 <= j < |v| && v[j] == t;
      SortedHeadBelow(v, j);
      if LexLe(t, v[0]) {
        LexAntisym(t, v[0]);
      }
      InsertPresentTag(t, v[1..]);
      assert v == [v[0]] + v[1..];
    }
  }

  /** Tagging twice with the same tag is tagging once. */
  lemma InsertTagIdempotent(t: string, v: seq<string>)
    requires StrictlySorted(v)
    ensures InsertTag(t, InsertTag(t, v)) == InsertTag(t, v)
  {
    InsertTagSorted(t, v);
    InsertPresentTag(t, InsertTag(t, v));
  }

  datatype Blob = Blob(data: seq<bv8>, tags: seq<string>)

  /** What `blobs[id]` yields: the stored blob, or an empty one. */
  function BlobAt(blobs: map<nat, Blob>, id: nat): (b: Blob)
    ensures id !in blobs ==> b == Blob([], [])
    ensures id in blobs ==> b == blobs[id]
  {
    if id in blobs then blobs[id] else Blob([], [])
  }

  /** The C++ `BlobStore`. `hash` is `std::hash<std::string>`. */
  class Store {
    var blobs: map<nat, Blob>

    ghost predicate Valid()
      reads this
    {
      forall id :: id in blobs ==> StrictlySorted(blobs[id].tags)
    }

    constructor()
      ensures Valid() && blobs == map[]
    {
      blobs := map[];
    }

    /** `put`: read chunks until an empty one, store the bytes under their
        hash with no tags (replacing a blob with the same id), return the id. */
    method Put(buf: MultiBuf, hash: seq<bv8> -> nat) returns (id: nat)
      requires Valid()
      modifies this, buf`pos
      ensures Valid()
      ensures id == hash(Gather(buf.chunks, old(buf.pos)))
      ensures blobs == old(blobs)[id := Blob(Gather(buf.chunks, old(buf.pos)), [])]
      ensures buf.pos == StopAt(buf.chunks, old(buf.pos)) + 1
    {
      var contents: seq<bv8> := [];
      while true
        invariant old(buf.pos) <= buf.pos <= StopAt(buf.chunks, old(buf.pos))
        invariant StopAt(buf.chunks, buf.pos) == StopAt(buf.chunks, old(buf.pos))
        invariant contents + Gather(buf.chunks, buf.pos) == Gather(buf.chunks, old(buf.pos))
        invariant blobs == old(blobs)
        decreases StopAt(buf.chunks, old(buf.pos)) - buf.pos
      {
        ghost var p := buf.pos;
        var chunk := buf.NextChunk();
        if |chunk| == 0 {
          assert Gather(buf.chunks, p) == [] && StopAt(buf.chunks, p) == p;
          assert contents + [] == contents;
          break;
        }
        assert Gather(buf.chunks, p) == chunk + Gather(buf.chunks, p + 1);
        contents := contents + chunk;
      }
      id := hash(contents);
      blobs := blobs[id := Blob(contents, [])];
    }

    /** `tag`: add the tag to the blob's set, creating an empty blob for an
        unknown id. */
    method Tag(id: nat, t: string)
      requires Valid()
      modifies this
      ensures Valid()
      ensures blobs == old(blobs)[id := Blob(BlobAt(old(blobs), id).data, InsertTag(t, BlobAt(old(blobs), id).tags))]
    {
      var b := BlobAt(blobs, id);
      InsertTagSorted(t, b.tags);
      blobs := blobs[id := Blob(b.data, InsertTag(t, b.tags))];
    }

    /** `metadata`: the default for an unknown id (without inserting one),
        otherwise the data length and the tags in ascending order. */
    method Metadata(id: nat) returns (r: BlobMetadata)
      ensures fresh(r)
      ensures id !in blobs ==> r.size == 0 && r.tags == []
      ensures id in blobs ==> r.size == |blobs[id].data| && r.tags == CStrs(blobs[id].tags)
    {
      r := new BlobMetadata.Default();
      if id in blobs {
        var b := blobs[id];
        r.SetSize(|b.data|);
        for k := 0 to |b.tags|
          invariant r.size == |b.data|
          invariant r.tags == CStrs(b.tags[..k])
        {
          assert b.tags[..k + 1][..k] == b.tags[..k];
          r.PushTag(b.tags[k]);
        }
        assert b.tags[..|b.tags|] == b.tags;
      }
    }
  }
}
