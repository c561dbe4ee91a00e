/**
 * The template formatter of the developer tasks
 * (xtask/src/format_templates.rs). Before clang-format runs over a Sailfish
 * C++ template, every `<%…%>` tag is swapped for a numbered comment
 * `/* SAILFISH_TEMPLATE<i> */`; afterwards each comment is swapped back for
 * its tag. Running clang-format and reading and writing the template files
 * are not part of this model.
 */
module TemplateFormat {
  import opened Wrappers
  import opened StrUtil
  import SeqUtil

  const OPEN := "<%"
  const CLOSE := "%>"
  const MARK := "SAILFISH_TEMPLATE"
  const NO_CLOSE := "A <% without %> found in template"

  /** The comment that stands for tag `i` while the template is formatted. */
  function Comment(i: nat): string { "/* " + MARK + NatToString(i) + " */" }

  /** A tag as it is written in the template. */
  function Tag(tag: string): string { OPEN + tag + CLOSE }

  // ---- tags to comments ----

  /** `convert_sailfish_tags_to_comment`, numbering the comments from `n`:
      the text with each tag replaced by its comment, and the tags' inner
      texts in order. */
  function ToComments(t: string, n: nat): (r: Result<(string, seq<string>), string>)
    ensures r.Err? ==> r.error == NO_CLOSE
    ensures !Contains(t, OPEN) ==> r == Ok((t, []))
    decreases |t|
  {
    match SplitOnce(t, OPEN)
    case None => Ok((t, []))
    case Some((before, rest)) =>
      match SplitOnce(rest, CLOSE)
      case None => Err(NO_CLOSE)
      case Some((tag, rest2)) =>
        match ToComments(rest2, n + 1)
        case Err(e) => Err(e)
        case Ok((text, tags)) => Ok((before + Comment(n) + text, [tag] + tags))
  }

  /** What was converted so far, in front of the conversion of the rest. */
  function Prepend(text: string, tags: seq<string>, r: Result<(string, seq<string>), string>): Result<(string, seq<string>), string> {
    match r
    case Err(e) => Err(e)
    case Ok((t, ts)) => Ok((text + t, tags + ts))
  }

  /** The loop of `convert_sailfish_tags_to_comment`. */
  method ConvertTagsToComments(template: string) returns (r: Result<(string, seq<string>), string>)
    ensures r == ToComments(template, 0)
  {
    var resultText := "";
    var tags: seq<string> := [];
    var rest := template;
    var open := SplitOnce(rest, OPEN);
    PrependNothing(ToComments(template, 0));
    while open.Some?
      invariant open == SplitOnce(rest, OPEN)
      invariant ToComments(template, 0) == Prepend(resultText, tags, ToComments(rest, |tags|))
      decreases |rest|
    {
      var before, after := open.value.0, open.value.1;
      var close := SplitOnce(after, CLOSE);
      ToCommentsStep(rest, |tags|);
      if close.None? {
        return Err(NO_CLOSE);
      }
      var tag, rest2 := close.value.0, close.value.1;
      var piece := before + Comment(|tags|);
      PrependStep(resultText, tags, piece, tag, ToComments(rest2, |tags| + 1));
      resultText := resultText + piece;
      tags := tags + [tag];
      rest := rest2;
      open := SplitOnce(rest, OPEN);
    }
    assert tags + [] == tags;
    r := Ok((resultText + rest, tags));
  }

  /** One tag of `convert_sailfish_tags_to_comment`. */
  lemma ToCommentsStep(t: string, n: nat)
    requires SplitOnce(t, OPEN).Some?
    ensures var (before, rest) := SplitOnce(t, OPEN).value;
            match SplitOnce(rest, CLOSE)
            case None => ToComments(t, n) == Err(NO_CLOSE)
            case Some((tag, rest2)) =>
              ToComments(t, n) == Prepend(before + Comment(n), [tag], ToComments(rest2, n + 1))
  {
  }

  lemma PrependNothing(r: Result<(string, seq<string>), string>)
    ensures Prepend("", [], r) == r
  {
    if r.Ok? {
      assert "" + r.value.0 == r.value.0;
      assert [] + r.value.1 == r.value.1;
    }
  }

  lemma PrependStep(text: string, tags: seq<string>, more: string, tag: string, r: Result<(string, seq<string>), string>)
    ensures Prepend(text, tags, Prepend(more, [tag], r)) == Prepend(text + more, tags + [tag], r)
  {
    if r.Ok? {
      assert text + (more + r.value.0) == text + more + r.value.0;
      assert tags + ([tag] + r.value.1) == tags + [tag] + r.value.1;
    }
  }

  // ---- comments to tags ----

  /** The first `k` comments swapped back, in order: each comment `i` is
      replaced everywhere by tag `i`. */
  function Restore(s: string, tags: seq<string>, k: nat): string
    requires k <= |tags|
  {
    if k == 0 then s else ReplaceAll(Restore(s, tags, k - 1), Comment(k - 1), Tag(tags[k - 1]))
  }

  /** `convert_comments_to_sailfish_tag`. */
  method ConvertCommentsToTags(template: string, tags: seq<string>) returns (r: string)
    ensures r == Restore(template, tags, |tags|)
  {
    r := template;
    for i := 0 to |tags|
      invariant r == Restore(template, tags, i)
    {
      r := ReplaceAll(r, Comment(i), Tag(tags[i]));
    }
  }

  // ---- the shape of a converted template ----

  /** The template's text between its tags. */
  function Pieces(t: string): seq<string>
    decreases |t|
  {
    match SplitOnce(t, OPEN)
    case None => [t]
    case Some((before, rest)) =>
      match SplitOnce(rest, CLOSE)
      case None => [t]
      case Some((tag, rest2)) => [before] + Pieces(rest2)
  }

  /** The slot of tag `b` when the tags below `k` are restored. */
  function Slot(tag: string, k: nat, b: nat): string {
    if b < k then Tag(tag) else Comment(b)
  }

  /** Pieces and slots interleaved, the slots numbered from `b`. */
  function Render(ps: seq<string>, tags: seq<string>, k: nat, b: nat): string
    requires |ps| == |tags| + 1
    decreases |tags|
  {
    if |tags| == 0 then ps[0]
    else ps[0] + Slot(tags[0], k, b) + Render(ps[1..], tags[1..], k, b + 1)
  }

  /** Pieces and tags interleaved, as the template is written. */
  function WithTags(ps: seq<string>, tags: seq<string>): string
    requires |ps| == |tags| + 1
    decreases |tags|
  {
    if |tags| == 0 then ps[0]
    else ps[0] + Tag(tags[0]) + WithTags(ps[1..], tags[1..])
  }

  /** With every slot restored, the slots are the tags. */
  lemma {:induction false} RenderRestored(ps: seq<string>, tags: seq<string>, k: nat, b: nat)
    requires |ps| == |tags| + 1 && b + |tags| <= k
    ensures Render(ps, tags, k, b) == WithTags(ps, tags)
    decreases |tags|
  {
    if |tags| > 0 {
      RenderRestored(ps[1..], tags[1..], k, b + 1);
    }
  }

  predicate Free(s: string) { !Contains(s, MARK) }

  predicate AllFree(v: seq<string>) { forall i | 0 <= i < |v| :: Free(v[i]) }

  lemma FreeParts(a: string, b: string)
    requires Free(a + b)
    ensures Free(a) && Free(b)
  {
    if !Free(a) {
      var q: nat :| q <= |a| && OccursAt(a, MARK, q);
      assert (a + b)[q..q + |MARK|] == a[q..q + |MARK|];
      assert OccursAt(a + b, MARK, q);
    }
    if !Free(b) {
      var q: nat :| q <= |b| && OccursAt(b, MARK, q);
      assert (a + b)[|a| + q..|a| + q + |MARK|] == b[q..q + |MARK|];
      assert OccursAt(a + b, MARK, |a| + q);
    }
  }

  lemma PiecesStep(t: string)
    requires SplitOnce(t, OPEN).Some? && SplitOnce(SplitOnce(t, OPEN).value.1, CLOSE).Some?
    ensures Pieces(t) == [SplitOnce(t, OPEN).value.0] + Pieces(SplitOnce(SplitOnce(t, OPEN).value.1, CLOSE).value.1)
  {
  }

  lemma Regroup(a: string, o: string, m: string, c: string, z: string)
    ensures a + o + (m + c + z) == a + (o + m + c) + z
  {
  }

  lemma RenderCons(p: string, ps: seq<string>, tag: string, tags: seq<string>, k: nat, b: nat)
    requires |ps| == |tags| + 1
    ensures Render([p] + ps, [tag] + tags, k, b) == p + Slot(tag, k, b) + Render(ps, tags, k, b + 1)
  {
    assert ([p] + ps)[1..] == ps && ([tag] + tags)[1..] == tags;
  }

  lemma AllFreeCons(x: string, v: seq<string>)
    ensures AllFree([x] + v) <==> Free(x) && AllFree(v)
  {
    if Free(x) && AllFree(v) {
      forall i | 0 <= i < |[x] + v|
        ensures Free(([x] + v)[i])
      {
        if i > 0 {
          assert ([x] + v)[i] == v[i - 1];
        }
      }
    }
    if AllFree([x] + v) {
      assert ([x] + v)[0] == x;
      forall i | 0 <= i < |v|
        ensures Free(v[i])
      {
        assert ([x] + v)[i + 1] == v[i];
      }
    }
  }

  /** A template that converts has one piece more than it has tags. */
  lemma {:induction false} PiecesCount(t: string, n: nat)
    requires ToComments(t, n).Ok?
    ensures |Pieces(t)| == |ToComments(t, n).value.1| + 1
    decreases |t|
  {
    match SplitOnce(t, OPEN)
    case None =>
    case Some((before, rest)) =>
      ToCommentsStep(t, n);
      match SplitOnce(rest, CLOSE)
      case None =>
        assert false;
      case Some((tag, rest2)) =>
        PiecesCount(rest2, n + 1);
        PiecesStep(t);
  }

  /** The converted text is the pieces with the comments. */
  lemma {:induction false} DecomposeText(t: string, n: nat)
    requires ToComments(t, n).Ok?
    ensures |Pieces(t)| == |ToComments(t, n).value.1| + 1
    ensures ToComments(t, n).value.0 == Render(Pieces(t), ToComments(t, n).value.1, 0, n)
    decreases |t|
  {
    PiecesCount(t, n);
    match SplitOnce(t, OPEN)
    case None =>
    case Some((before, rest)) =>
      ToCommentsStep(t, n);
      match SplitOnce(rest, CLOSE)
      case None =>
        assert false;
      case Some((tag, rest2)) =>
        var m := n + 1;
        DecomposeText(rest2, m);
        PiecesStep(t);
        var r := ToComments(rest2, m).value;
        RenderText(before, tag, r.0, r.1, Pieces(rest2), n, m);
  }

  /** The template is the pieces with the tags. */
  lemma {:induction false} DecomposeTemplate(t: string, n: nat)
    requires ToComments(t, n).Ok?
    ensures |Pieces(t)| == |ToComments(t, n).value.1| + 1
    ensures t == WithTags(Pieces(t), ToComments(t, n).value.1)
    decreases |t|
  {
    PiecesCount(t, n);
    match SplitOnce(t, OPEN)
    case None =>
    case Some((before, rest)) =>
      ToCommentsStep(t, n);
      match SplitOnce(rest, CLOSE)
      case None =>
        assert false;
      case Some((tag, rest2)) =>
        DecomposeTemplate(rest2, n + 1);
        PiecesStep(t);
        var tags := ToComments(rest2, n + 1).value.1;
        var ps := Pieces(rest2);
        assert ([before] + ps)[1..] == ps && ([tag] + tags)[1..] == tags;
        Regroup(before, OPEN, tag, CLOSE, rest2);
  }

  /** The converted text of `Decompose`'s step. */
  lemma RenderText(before: string, tag: string, text: string, tags: seq<string>, ps: seq<string>, n: nat, m: nat)
    requires |ps| == |tags| + 1 && m == n + 1
    requires text == Render(ps, tags, 0, m)
    ensures before + Comment(n) + text == Render([before] + ps, [tag] + tags, 0, n)
  {
    RenderCons(before, ps, tag, tags, 0, n);
  }

  lemma FreeTag(t: string, before: string, tag: string, rest2: string)
    requires Free(t) && t == before + OPEN + (tag + CLOSE + rest2)
    ensures Free(before) && Free(tag) && Free(rest2)
  {
    assert t == before + (OPEN + (tag + (CLOSE + rest2)));
    FreeParts(before, OPEN + (tag + (CLOSE + rest2)));
    FreeParts(OPEN, tag + (CLOSE + rest2));
    FreeParts(tag, CLOSE + rest2);
    FreeParts(CLOSE, rest2);
  }

  /** A template without the marker text has pieces and tags without it. */
  lemma {:induction false} DecomposeFree(t: string, n: nat)
    requires ToComments(t, n).Ok? && Free(t)
    ensures AllFree(Pieces(t)) && AllFree(ToComments(t, n).value.1)
    decreases |t|
  {
    match SplitOnce(t, OPEN)
    case None =>
      AllFreeCons(t, []);
    case Some((before, rest)) =>
      ToCommentsStep(t, n);
      match SplitOnce(rest, CLOSE)
      case None =>
        assert false;
      case Some((tag, rest2)) =>
        PiecesStep(t);
        FreeTag(t, before, tag, rest2);
        DecomposeFree(rest2, n + 1);
        AllFreeCons(before, Pieces(rest2));
        AllFreeCons(tag, ToComments(rest2, n + 1).value.1);
  }

  // ---- where the marker text can be ----

  /** The characters of the marker. */
  predicate MarkChar(c: char) { 'A' <= c <= 'Z' || c == '_' }

  lemma Covers(s: string, q: nat, x: nat)
    requires OccursAt(s, MARK, q) && q <= x < q + |MARK|
    ensures MarkChar(s[x])
  {
    assert forall y | 0 <= y < |MARK| :: MarkChar(MARK[y]);
    assert s[q..q + |MARK|][x - q] == s[x];
  }

  lemma NotFree(s: string, q: nat)
    requires OccursAt(s, MARK, q)
    ensures !Free(s)
  {
  }

  /** A marker starting in a piece free of it, followed by a character
      that is not part of any marker, starts after the piece. */
  lemma MarkAfterPiece(p: string, rest: string, q: nat)
    requires Free(p) && |rest| > 0 && !MarkChar(rest[0])
    requires OccursAt(p + rest, MARK, q)
    ensures q >= |p|
  {
    if q < |p| {
      if q + |MARK| <= |p| {
        OccursInPrefix(p, rest, MARK, q);
        NotFree(p, q);
      } else {
        Covers(p + rest, q, |p|);
      }
      assert false;
    }
  }

  /** A marker does not start in a restored tag free of it. */
  lemma MarkAfterTag(tag: string, rest: string, q: nat)
    requires Free(tag) && OccursAt(Tag(tag) + rest, MARK, q)
    ensures q >= |Tag(tag)|
  {
    var s := Tag(tag) + rest;
    assert s == OPEN + (tag + (CLOSE + rest));
    var e := 2 + |tag|;
    assert s[0] == '<' && s[1] == '%' && s[e] == '%' && s[e + 1] == '>';
    if q < |Tag(tag)| {
      if q < 2 || q >= e {
        Covers(s, q, q);
      } else if q + |MARK| <= e {
        OccursInSuffix(OPEN, tag + (CLOSE + rest), MARK, q);
        OccursInPrefix(tag, CLOSE + rest, MARK, q - 2);
        NotFree(tag, q - 2);
      } else {
        Covers(s, q, e);
      }
      assert false;
    }
  }

  lemma CommentShape(i: nat)
    ensures var d := NatToString(i);
            |Comment(i)| == 23 + |d| &&
            Comment(i)[0] == '/' && Comment(i)[1] == '*' && Comment(i)[2] == ' ' &&
            Comment(i)[3..20] == MARK &&
            Comment(i)[20..20 + |d|] == d &&
            (forall x | 20 <= x < 20 + |d| :: IsDigit(Comment(i)[x])) &&
            Comment(i)[20 + |d|] == ' ' && Comment(i)[21 + |d|] == '*' && Comment(i)[22 + |d|] == '/'
  {
    var d := NatToString(i);
    NatToStringDigits(i);
    var c := Comment(i);
    assert c == "/* " + (MARK + (d + " */"));
    assert forall x | 20 <= x < 20 + |d| :: c[x] == d[x - 20];
  }

  /** Inside a comment, the marker starts only after its opening slash, star and space. */
  lemma MarkInComment(b: nat, rest: string, q: nat)
    requires OccursAt(Comment(b) + rest, MARK, q)
    ensures q == 3 || q >= |Comment(b)|
  {
    var s := Comment(b) + rest;
    CommentShape(b);
    var c := Comment(b);
    assert forall x | 0 <= x < |c| :: s[x] == c[x];
    if q != 3 && q < |c| {
      if q < 3 || q >= 20 {
        Covers(s, q, q);
      } else {
        Covers(s, q, 20);
      }
      assert false;
    }
  }

  /** The marker starts three characters into a slot that is still a
      comment, and otherwise only after the slot. */
  lemma {:induction false} MarkerLate(ps: seq<string>, tags: seq<string>, k: nat, b: nat, q: nat)
    requires |ps| == |tags| + 1 && AllFree(ps) && AllFree(tags)
    requires OccursAt(Render(ps, tags, k, b), MARK, q)
    ensures |tags| > 0 && q >= |ps[0]| + 3
    ensures |tags| > 0 && b < k ==> q >= |ps[0]| + |Tag(tags[0])| + 3
    ensures |tags| > 0 && b >= k ==> q == |ps[0]| + 3 || q >= |ps[0]| + |Comment(b)| + 3
    decreases |tags|
  {
    if |tags| == 0 {
      NotFree(ps[0], q);
      assert false;
    } else {
      RenderUnfold(ps, tags, k, b);
      var p, x, s' := ps[0], Slot(tags[0], k, b), Render(ps[1..], tags[1..], k, b + 1);
      if b < k {
        assert (x + s')[0] == '<';
      } else {
        CommentShape(b);
        assert (x + s')[0] == '/';
      }
      MarkAfterPiece(p, x + s', q);
      OccursInSuffix(p, x + s', MARK, q);
      var q1 := q - |p|;
      if b < k {
        MarkAfterTag(tags[0], s', q1);
      } else {
        MarkInComment(b, s', q1);
      }
      if q1 >= |x| {
        OccursInSuffix(x, s', MARK, q1);
        MarkerLate(ps[1..], tags[1..], k, b + 1, q1 - |x|);
      }
    }
  }

  /** A comment's text holds the marker three characters in. */
  lemma CommentHasMark(i: nat, s: string, q: nat)
    requires OccursAt(s, Comment(i), q)
    ensures OccursAt(s, MARK, q + 3)
  {
    CommentShape(i);
    var c := Comment(i);
    assert s[q..q + |c|] == c;
    assert s[q + 3..q + 20] == s[q..q + |c|][3..20];
  }

  lemma PrefixAgree(p: string, q: string, rest: string, x: nat)
    requires OccursAt(q + rest, p, 0) && x < |p| && x < |q|
    ensures p[x] == q[x]
  {
    assert p[x] == (q + rest)[..|p|][x];
  }

  /** Where comment `b` stands, no other comment starts. */
  lemma CommentIsOwn(i: nat, b: nat, rest: string)
    requires OccursAt(Comment(b) + rest, Comment(i), 0)
    ensures i == b
  {
    CommentShape(i);
    CommentShape(b);
    var di, db := NatToString(i), NatToString(b);
    var s := Comment(b) + rest;
    assert s[..|Comment(i)|] == Comment(i);
    if |di| == |db| {
      assert Comment(i) == s[..|Comment(b)|] == Comment(b);
      assert di == Comment(i)[20..20 + |di|] == Comment(b)[20..20 + |db|] == db;
      NatToStringInjective(i, b);
    } else if |di| < |db| {
      assert false;
    } else {
      PrefixAgree(Comment(i), Comment(b), rest, 20 + |db|);
      assert false;
    }
  }

  /** A render with a slot is its first piece, that slot and the rest. */
  lemma RenderUnfold(ps: seq<string>, tags: seq<string>, k: nat, b: nat)
    requires |ps| == |tags| + 1 && |tags| > 0
    ensures Render(ps, tags, k, b) == ps[0] + (Slot(tags[0], k, b) + Render(ps[1..], tags[1..], k, b + 1))
    ensures AllFree(ps) ==> AllFree(ps[1..])
    ensures AllFree(tags) ==> AllFree(tags[1..])
  {
  }

  /** A comment that starts where slot `b` starts is comment `b`. */
  lemma CommentAtSlot(i: nat, b: nat, p: string, x: string, rest: string)
    requires x == Comment(b) && OccursAt(p + (x + rest), Comment(i), |p|)
    ensures i == b
  {
    OccursInSuffix(p, x + rest, Comment(i), |p|);
    CommentIsOwn(i, b, rest);
  }

  /** Past slot `i`, comment `i` does not occur. */
  lemma {:induction false} NoCommentBelow(ps: seq<string>, tags: seq<string>, k: nat, b: nat, i: nat)
    requires |ps| == |tags| + 1 && AllFree(ps) && AllFree(tags) && i < b
    ensures !Contains(Render(ps, tags, k, b), Comment(i))
    decreases |tags|
  {
    var s := Render(ps, tags, k, b);
    if Contains(s, Comment(i)) {
      var q: nat :| q <= |s| && OccursAt(s, Comment(i), q);
      CommentLate(ps, tags, k, b, i, q);
      if q == |ps[0]| {
        RenderUnfold(ps, tags, k, b);
        CommentAtSlot(i, b, ps[0], Slot(tags[0], k, b), Render(ps[1..], tags[1..], k, b + 1));
      } else {
        OccursPastSlot(ps, tags, k, b, Comment(i), q);
        NoCommentBelow(ps[1..], tags[1..], k, b + 1, i);
      }
      assert false;
    }
  }

  /** With all slots at or past `b` comments, it does not matter how many
      tags are counted as restored below `b`. */
  lemma {:induction false} RenderAllComments(ps: seq<string>, tags: seq<string>, k1: nat, k2: nat, b: nat)
    requires |ps| == |tags| + 1 && k1 <= b && k2 <= b
    ensures Render(ps, tags, k1, b) == Render(ps, tags, k2, b)
    decreases |tags|
  {
    if |tags| > 0 {
      RenderAllComments(ps[1..], tags[1..], k1, k2, b + 1);
    }
  }

  /** A comment does not start in the first piece, nor inside the first
      slot unless exactly at it. */
  lemma CommentLate(ps: seq<string>, tags: seq<string>, k: nat, b: nat, i: nat, q: nat)
    requires |ps| == |tags| + 1 && AllFree(ps) && AllFree(tags)
    requires OccursAt(Render(ps, tags, k, b), Comment(i), q)
    ensures |tags| > 0 && q >= |ps[0]|
    ensures |tags| > 0 && b < k ==> q >= |ps[0]| + |Tag(tags[0])|
    ensures |tags| > 0 && b >= k ==> q == |ps[0]| || q >= |ps[0]| + |Comment(b)|
  {
    CommentHasMark(i, Render(ps, tags, k, b), q);
    MarkerLate(ps, tags, k, b, q + 3);
  }

  /** No comment starts before the end of a restored first slot. */
  lemma NoCommentInFirst(ps: seq<string>, tags: seq<string>, k: nat, b: nat, i: nat)
    requires |ps| == |tags| + 1 && AllFree(ps) && AllFree(tags) && |tags| > 0
    ensures forall q: nat :: q < |ps[0]| + (if b < k then |Tag(tags[0])| else 0) ==> !OccursAt(Render(ps, tags, k, b), Comment(i), q)
  {
    forall q: nat | q < |ps[0]| + (if b < k then |Tag(tags[0])| else 0)
      ensures !OccursAt(Render(ps, tags, k, b), Comment(i), q)
    {
      if OccursAt(Render(ps, tags, k, b), Comment(i), q) {
        CommentLate(ps, tags, k, b, i, q);
      }
    }
  }

  /** An occurrence past the first slot is an occurrence in the rest. */
  lemma OccursPastSlot(ps: seq<string>, tags: seq<string>, k: nat, b: nat, pat: string, q: nat)
    requires |ps| == |tags| + 1 && |tags| > 0
    requires OccursAt(Render(ps, tags, k, b), pat, q) && q >= |ps[0]| + |Slot(tags[0], k, b)|
    ensures OccursAt(Render(ps[1..], tags[1..], k, b + 1), pat, q - |ps[0]| - |Slot(tags[0], k, b)|)
  {
    RenderUnfold(ps, tags, k, b);
    var p, x, s' := ps[0], Slot(tags[0], k, b), Render(ps[1..], tags[1..], k, b + 1);
    SeqUtil.AppendAssoc(p, x, s');
    OccursInSuffix(p + x, s', pat, q);
  }

  /** Swapping back comment `i` turns slot `i` into its tag and changes
      nothing else. */
  lemma {:induction false} StepAt(ps: seq<string>, tags: seq<string>, i: nat, b: nat)
    requires |ps| == |tags| + 1 && AllFree(ps) && AllFree(tags)
    requires b <= i < b + |tags|
    ensures ReplaceAll(Render(ps, tags, i, b), Comment(i), Tag(tags[i - b])) == Render(ps, tags, i + 1, b)
    decreases |tags|
  {
    if b < i {
      StepLater(ps, tags, i, b);
    } else {
      StepHere(ps, tags, i);
    }
  }

  /** Slot `b` is already a tag: the swap happens further on. */
  lemma {:induction false} StepLater(ps: seq<string>, tags: seq<string>, i: nat, b: nat)
    requires |ps| == |tags| + 1 && AllFree(ps) && AllFree(tags)
    requires b < i < b + |tags|
    ensures ReplaceAll(Render(ps, tags, i, b), Comment(i), Tag(tags[i - b])) == Render(ps, tags, i + 1, b)
    decreases |tags|, 0
  {
    RenderUnfold(ps, tags, i + 1, b);
    var p, x := ps[0], Slot(tags[0], i, b);
    assert Slot(tags[0], i + 1, b) == x;
    SkipFirstSlot(ps, tags, i, b);
    assert tags[1..][i - (b + 1)] == tags[i - b];
    StepAt(ps[1..], tags[1..], i, b + 1);
    SeqUtil.AppendAssoc(p, x, Render(ps[1..], tags[1..], i + 1, b + 1));
  }

  /** Below a later comment, the first piece and slot are left alone. */
  lemma SkipFirstSlot(ps: seq<string>, tags: seq<string>, i: nat, b: nat)
    requires |ps| == |tags| + 1 && AllFree(ps) && AllFree(tags)
    requires b < i < b + |tags|
    ensures ReplaceAll(Render(ps, tags, i, b), Comment(i), Tag(tags[i - b]))
            == (ps[0] + Slot(tags[0], i, b)) + ReplaceAll(Render(ps[1..], tags[1..], i, b + 1), Comment(i), Tag(tags[i - b]))
  {
    RenderUnfold(ps, tags, i, b);
    var p, x, s' := ps[0], Slot(tags[0], i, b), Render(ps[1..], tags[1..], i, b + 1);
    NoCommentInFirst(ps, tags, i, b, i);
    SeqUtil.AppendAssoc(p, x, s');
    ReplaceAllSkip(p + x, s', Comment(i), Tag(tags[i - b]));
  }

  /** Slot `i` is the first slot: it is swapped and nothing after it. */
  lemma StepHere(ps: seq<string>, tags: seq<string>, i: nat)
    requires |ps| == |tags| + 1 && AllFree(ps) && AllFree(tags) && |tags| > 0
    ensures ReplaceAll(Render(ps, tags, i, i), Comment(i), Tag(tags[0])) == Render(ps, tags, i + 1, i)
  {
    RenderUnfold(ps, tags, i, i);
    RenderUnfold(ps, tags, i + 1, i);
    var p, s' := ps[0], Render(ps[1..], tags[1..], i, i + 1);
    NoCommentInFirst(ps, tags, i, i, i);
    ReplaceAllSkip(p, Comment(i) + s', Comment(i), Tag(tags[0]));
    ReplaceAllHere(Comment(i), s', Tag(tags[0]));
    NoCommentBelow(ps[1..], tags[1..], i, i + 1, i);
    ReplaceAllNone(s', Comment(i), Tag(tags[0]));
    RenderAllComments(ps[1..], tags[1..], i, i + 1, i + 1);
  }

  lemma {:induction false} RestoreRenders(ps: seq<string>, tags: seq<string>, k: nat)
    requires |ps| == |tags| + 1 && AllFree(ps) && AllFree(tags) && k <= |tags|
    ensures Restore(Render(ps, tags, 0, 0), tags, k) == Render(ps, tags, k, 0)
    decreases k
  {
    if k > 0 {
      RestoreRenders(ps, tags, k - 1);
      StepAt(ps, tags, k - 1, 0);
    }
  }

  /** Swapping the comments back gives the original template, as long as
      it never spells out the marker text itself. */
  lemma RoundTrip(t: string)
    requires Free(t) && ToComments(t, 0).Ok?
    ensures Restore(ToComments(t, 0).value.0, ToComments(t, 0).value.1, |ToComments(t, 0).value.1|) == t
  {
    DecomposeText(t, 0);
    DecomposeTemplate(t, 0);
    RenderRestored(Pieces(t), ToComments(t, 0).value.1, |ToComments(t, 0).value.1|, 0);
    DecomposeFree(t, 0);
    RestoreRenders(Pieces(t), ToComments(t, 0).value.1, |ToComments(t, 0).value.1|);
  }
}
