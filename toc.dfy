/** The documentation book's sidebar element (`MDBookSidebarScrollbox`): when it
    is attached it marks the link of the current page, expands the chapters
    around it, rewrites relative links against the site root, restores the
    remembered scroll offset, and wires the toggle buttons.

    The table of contents the element renders is a tree of `Element`s indexed
    in document order; the class lists and `href` attributes are the parts the
    script changes. */
module Toc {
  import opened Wrappers
  import opened StrUtil

  const ACTIVE := "active"
  const EXPANDED := "expanded"
  const CHAPTER_ITEM := "chapter-item"
  const TOGGLE := "toggle"
  const SCROLL_KEY := "sidebar-scroll"
  const INDEX_PAGE := "index.html"
  /** Scroll offsets are JavaScript numbers; integral ones are exact below 2^53. */
  const MAX_SCROLL: nat := 0x20_0000_0000_0000

  // ---------------------------------------------------------------------
  // The current page
  // ---------------------------------------------------------------------

  /** `url.split("#")[0]`: the text before the first `#`. */
  function BeforeHash(url: string): (b: string)
    ensures '#' !in b
    ensures b <= url
    ensures b == url || url[|b|] == '#'
  {
    if |url| == 0 || url[0] == '#' then "" else [url[0]] + BeforeHash(url[1..])
  }

  /** The three properties of `BeforeHash` determine it. */
  lemma BeforeHashUnique(url: string, b: string)
    requires '#' !in b && b <= url
    requires b == url || url[|b|] == '#'
    ensures b == BeforeHash(url)
  {
    var c := BeforeHash(url);
    assert b == url[..|b|] && c == url[..|c|];
  }

  /** The page being shown: the location without its fragment, with
      `index.html` added to a directory URL. */
  function CurrentPage(url: string): (r: string)
    ensures '#' !in r
    ensures !EndsWith(r, "/")
    ensures BeforeHash(url) <= r
    ensures r != BeforeHash(url) ==> EndsWith(BeforeHash(url), "/") && r == BeforeHash(url) + INDEX_PAGE
  {
    var page := BeforeHash(url);
    if EndsWith(page, "/") then
      var r := page + INDEX_PAGE;
      assert r[|r| - 1] == 'l';
      r
    else page
  }

  /** Resolving the current page of a current page changes nothing. */
  lemma CurrentPageIdempotent(url: string)
    ensures CurrentPage(CurrentPage(url)) == CurrentPage(url)
  {
    var r := CurrentPage(url);
    BeforeHashUnique(r, r);
  }

  // ---------------------------------------------------------------------
  // Link rewriting
  // ---------------------------------------------------------------------

  /** The characters of `[a-z+]`. */
  predicate SchemeChar(c: char) { 'a' <= c <= 'z' || c == '+' }

  /** Length of the longest prefix of scheme characters. */
  function SchemeLen(h: string): (n: nat)
    ensures n <= |h|
    ensures forall j :: 0 <= j < n ==> SchemeChar(h[j])
    ensures n < |h| ==> !SchemeChar(h[n])
  {
    if |h| > 0 && SchemeChar(h[0]) then 1 + SchemeLen(h[1..]) else 0
  }

  /** A scan for `^(?:[a-z+]+:)?//`: a `//` at the start, or a maximal run of
      scheme characters followed by `://`. */
  predicate IsAbsoluteUrl(h: string) {
    StartsWith(h, "//") || (SchemeLen(h) >= 1 && OccursAt(h, "://", SchemeLen(h)))
  }

  /** What the regular expression `^(?:[a-z+]+:)?//` matches. */
  ghost predicate MatchesAbsolutePattern(h: string) {
    StartsWith(h, "//") ||
    exists k: nat :: 1 <= k && OccursAt(h, "://", k) && forall j :: 0 <= j < k ==> SchemeChar(h[j])
  }

  /** The scan accepts exactly what the regular expression matches: a scheme
      run cannot be cut short because `:` is not a scheme character. */
  lemma AbsoluteUrlMatchesPattern(h: string)
    ensures IsAbsoluteUrl(h) <==> MatchesAbsolutePattern(h)
  {
    var n := SchemeLen(h);
    if n >= 1 && OccursAt(h, "://", n) {
      assert forall j :: 0 <= j < n ==> SchemeChar(h[j]);
    }
    if MatchesAbsolutePattern(h) && !StartsWith(h, "//") {
      var k: nat :| 1 <= k && OccursAt(h, "://", k) && forall j :: 0 <= j < k ==> SchemeChar(h[j]);
      assert h[k] == h[k..k + 3][0] == ':';
      if k < n {
        assert SchemeChar(h[k]);
      }
    }
  }

  /** An `href` attribute the script moves under the site root: present,
      non-empty, not a fragment and not an absolute URL. */
  predicate Relocatable(href: Option<string>) {
    href.Some? && href.value != "" && href.value[0] != '#' && !IsAbsoluteUrl(href.value)
  }

  /** The attribute after the rewrite: relative links get `pathToRoot` in
      front; missing, empty, fragment and absolute links are untouched. */
  function RewriteHref(pathToRoot: string, href: Option<string>): (r: Option<string>)
    ensures href.None? ==> r.None?
    ensures href.Some? && (href.value == "" || href.value[0] == '#' || MatchesAbsolutePattern(href.value)) ==> r == href
    ensures href.Some? && href.value != "" && href.value[0] != '#' && !MatchesAbsolutePattern(href.value) ==>
      r == Some(pathToRoot + href.value)
  {
    match href
    case None => None
    case Some(h) =>
      AbsoluteUrlMatchesPattern(h);
      if Relocatable(href) then Some(pathToRoot + h) else href
  }

  /** At the root of the book (`pathToRoot` empty) no link changes. */
  lemma RewriteAtRoot(href: Option<string>)
    ensures RewriteHref("", href) == href
  {
    if Relocatable(href) {
      assert "" + href.value == href.value;
    }
  }

  /** The `href` property of a link: the attribute resolved against the
      document's base URL (`resolve`), or empty without an attribute. */
  function HrefProperty(resolve: string -> string, href: Option<string>): string {
    match href
    case None => ""
    case Some(h) => resolve(h)
  }

  /** The environment of one page load. `resolve` is the browser's URL
      resolution against the document base. */
  datatype Page = Page(location: string, pathToRoot: string, resolve: string -> string)

  /** Link `i` (in document order) is the active one: its resolved `href` is the
      current page, or it is the first link, the page is at the root and the
      current page is some `/index.html` (the index aliases the first chapter). */
  predicate IsActive(i: nat, linkHref: string, current: string, pathToRoot: string) {
    linkHref == current || (i == 0 && pathToRoot == "" && EndsWith(current, "/" + INDEX_PAGE))
  }

  // ---------------------------------------------------------------------
  // The tree of the table of contents
  // ---------------------------------------------------------------------

  /** One element: its tag name, its parent element and its previous element
      sibling, each an index or -1 for none. Document order puts both before
      the element itself. */
  datatype Element = Element(tag: string, parent: int, prev: int)

  predicate WellFormed(nodes: seq<Element>) {
    forall i :: 0 <= i < |nodes| ==> -1 <= nodes[i].parent < i && -1 <= nodes[i].prev < i
  }

  /** The anchors from index `k` on, in document order (`querySelectorAll("a")`). */
  function AnchorsFrom(nodes: seq<Element>, k: nat): (r: seq<nat>)
    requires k <= |nodes|
    ensures forall j :: 0 <= j < |r| ==> k <= r[j] < |nodes| && nodes[r[j]].tag == "A"
    ensures forall j, j' :: 0 <= j < j' < |r| ==> r[j] < r[j']
    ensures forall x :: k <= x < |nodes| && nodes[x].tag == "A" ==> x in r
    decreases |nodes| - k
  {
    if k == |nodes| then []
    else if nodes[k].tag == "A" then [k] + AnchorsFrom(nodes, k + 1)
    else AnchorsFrom(nodes, k + 1)
  }

  function Anchors(nodes: seq<Element>): seq<nat> { AnchorsFrom(nodes, 0) }

  /** The chain of elements from `p` up to the root, each the parent of the one
      before it. */
  function AncestorsFrom(nodes: seq<Element>, p: int): (r: seq<nat>)
    requires WellFormed(nodes) && -1 <= p < |nodes|
    ensures forall k :: 0 <= k < |r| ==> r[k] <= p
    ensures p < 0 <==> r == []
    ensures |r| > 0 ==> r[0] == p && nodes[r[|r| - 1]].parent == -1
    ensures forall k :: 0 <= k < |r| - 1 ==> r[k + 1] == nodes[r[k]].parent
    decreases p + 1
  {
    if p < 0 then [] else [p as nat] + AncestorsFrom(nodes, nodes[p].parent)
  }

  /** The strict ancestors of element `n`, nearest first. */
  function Ancestors(nodes: seq<Element>, n: nat): seq<nat>
    requires WellFormed(nodes) && n < |nodes|
  {
    AncestorsFrom(nodes, nodes[n].parent)
  }

  /** Ancestor `a` is a list item whose previous sibling is a chapter item. */
  predicate ExpandsSibling(nodes: seq<Element>, classes: seq<set<string>>, a: nat)
    requires WellFormed(nodes) && |classes| == |nodes| && a < |nodes|
  {
    nodes[a].tag == "LI" && nodes[a].prev >= 0 && CHAPTER_ITEM in classes[nodes[a].prev]
  }

  /** The siblings the upward walk expands, starting at element `p`. */
  function WalkTargets(nodes: seq<Element>, classes: seq<set<string>>, p: int): (r: set<nat>)
    requires WellFormed(nodes) && |classes| == |nodes| && -1 <= p < |nodes|
    ensures forall t :: t in r ==> t < p && CHAPTER_ITEM in classes[t]
    decreases p + 1
  {
    if p < 0 then {}
    else
      (if ExpandsSibling(nodes, classes, p) then {nodes[p].prev as nat} else {}) +
      WalkTargets(nodes, classes, nodes[p].parent)
  }

  /** Each element the walk expands is the previous sibling of a list item
      on the chain of ancestors. */
  lemma {:induction false} WalkTargetSource(nodes: seq<Element>, classes: seq<set<string>>, p: int, t: nat) returns (a: nat)
    requires WellFormed(nodes) && |classes| == |nodes| && -1 <= p < |nodes|
    requires t in WalkTargets(nodes, classes, p)
    ensures a in AncestorsFrom(nodes, p) && a < |nodes| && ExpandsSibling(nodes, classes, a) && nodes[a].prev == t
    decreases p + 1
  {
    var q := nodes[p].parent;
    assert AncestorsFrom(nodes, p) == [p as nat] + AncestorsFrom(nodes, q);
    if ExpandsSibling(nodes, classes, p) && nodes[p].prev == t {
      a := p;
    } else {
      a := WalkTargetSource(nodes, classes, q, t);
    }
  }

  /** The walk expands the chapter-item previous sibling of every list item
      on the chain of ancestors. */
  lemma {:induction false} WalkReachesAncestor(nodes: seq<Element>, classes: seq<set<string>>, p: int, a: nat)
    requires WellFormed(nodes) && |classes| == |nodes| && -1 <= p < |nodes|
    requires a in AncestorsFrom(nodes, p) && a < |nodes| && ExpandsSibling(nodes, classes, a)
    ensures nodes[a].prev as nat in WalkTargets(nodes, classes, p)
    decreases p + 1
  {
    var q := nodes[p].parent;
    assert AncestorsFrom(nodes, p) == [p as nat] + AncestorsFrom(nodes, q);
    if a != p {
      WalkReachesAncestor(nodes, classes, q, a);
    }
  }

  /** The walk expands exactly the chapter-item previous siblings of the list
      items on the chain of ancestors, and nothing else. */
  lemma WalkTargetsOfAncestors(nodes: seq<Element>, classes: seq<set<string>>, p: int, t: nat)
    requires WellFormed(nodes) && |classes| == |nodes| && -1 <= p < |nodes|
    ensures t in WalkTargets(nodes, classes, p) <==>
      exists a :: a in AncestorsFrom(nodes, p) && a < |nodes| && ExpandsSibling(nodes, classes, a) && nodes[a].prev == t
  {
    if t in WalkTargets(nodes, classes, p) {
      var a := WalkTargetSource(nodes, classes, p, t);
    }
    if exists a :: a in AncestorsFrom(nodes, p) && a < |nodes| && ExpandsSibling(nodes, classes, a) && nodes[a].prev == t {
      var a :| a in AncestorsFrom(nodes, p) && a < |nodes| && ExpandsSibling(nodes, classes, a) && nodes[a].prev == t;
      WalkReachesAncestor(nodes, classes, p, a);
    }
  }

  function ParentTarget(nodes: seq<Element>, classes: seq<set<string>>, l: nat): set<nat>
    requires WellFormed(nodes) && |classes| == |nodes| && l < |nodes|
  {
    var p := nodes[l].parent;
    if p >= 0 && CHAPTER_ITEM in classes[p] then {p as nat} else {}
  }

  /** Every element that gets `expanded` when link `l` is active: its parent if
      that is a chapter item, and the chapter-item previous sibling of every
      list item above it. All of them are chapter items placed before the link. */
  function ExpandTargets(nodes: seq<Element>, classes: seq<set<string>>, l: nat): (r: set<nat>)
    requires WellFormed(nodes) && |classes| == |nodes| && l < |nodes|
    ensures forall t :: t in r ==> t < l && CHAPTER_ITEM in classes[t]
  {
    ParentTarget(nodes, classes, l) + WalkTargets(nodes, classes, nodes[l].parent)
  }

  /** The walk depends on the class lists only through which elements are
      chapter items. */
  lemma {:induction false} WalkTargetsByChapterItems(nodes: seq<Element>, c1: seq<set<string>>, c2: seq<set<string>>, p: int)
    requires WellFormed(nodes) && |c1| == |nodes| && |c2| == |nodes| && -1 <= p < |nodes|
    requires forall k :: 0 <= k < |nodes| ==> (CHAPTER_ITEM in c1[k] <==> CHAPTER_ITEM in c2[k])
    ensures WalkTargets(nodes, c1, p) == WalkTargets(nodes, c2, p)
    decreases p + 1
  {
    if p >= 0 {
      WalkTargetsByChapterItems(nodes, c1, c2, nodes[p].parent);
    }
  }

  /** `cs'` is `cs` with class `c` added to each element of `targets`. */
  ghost predicate AddedClass(cs': seq<set<string>>, cs: seq<set<string>>, targets: set<nat>, c: string) {
    |cs'| == |cs| && forall k :: 0 <= k < |cs| ==> cs'[k] == if k in targets then cs[k] + {c} else cs[k]
  }

  /** `cs'` is `cs` after the link loop: `active` on the active links and
      `expanded` on what they expand. */
  ghost predicate IsMarked(cs': seq<set<string>>, cs: seq<set<string>>, active: set<nat>, expanded: set<nat>) {
    |cs'| == |cs| &&
    forall k :: 0 <= k < |cs| ==>
      cs'[k] == cs[k] + (if k in active then {ACTIVE} else {}) + (if k in expanded then {EXPANDED} else {})
  }

  /** Marking one more link active. */
  lemma MarkStep(cs: seq<set<string>>, c0: seq<set<string>>, active: set<nat>, expanded: set<nat>, l: nat)
    requires IsMarked(cs, c0, active, expanded) && l < |cs|
    ensures IsMarked(cs[l := cs[l] + {ACTIVE}], c0, active + {l}, expanded)
  {
  }

  /** Expanding after marking is marking with the larger set. */
  lemma MarkedThenExpanded(c2: seq<set<string>>, c1: seq<set<string>>, c0: seq<set<string>>,
                           active: set<nat>, expanded: set<nat>, more: set<nat>)
    requires IsMarked(c1, c0, active, expanded) && AddedClass(c2, c1, more, EXPANDED)
    ensures IsMarked(c2, c0, active, expanded + more)
  {
    forall k | 0 <= k < |c0|
      ensures c2[k] == c0[k] + (if k in active then {ACTIVE} else {}) + (if k in expanded + more then {EXPANDED} else {})
    {
    }
  }

  // ---------------------------------------------------------------------
  // The link loop, as functions of the loaded tree
  // ---------------------------------------------------------------------

  predicate LinksIn(links: seq<nat>, n: nat) {
    forall j :: 0 <= j < |links| ==> links[j] < n
  }

  /** In document order, so no element is listed twice. */
  predicate Increasing(links: seq<nat>) {
    forall a, b :: 0 <= a < b < |links| ==> links[a] < links[b]
  }

  /** `hs` is `h0` with the `href`s of the first `n` links rewritten. */
  ghost predicate RewrittenFirst(hs: seq<Option<string>>, h0: seq<Option<string>>, links: seq<nat>, pathToRoot: string, n: nat)
    requires n <= |links|
  {
    |hs| == |h0| &&
    forall k :: 0 <= k < |h0| ==> hs[k] == if k in links[..n] then RewriteHref(pathToRoot, h0[k]) else h0[k]
  }

  /** Rewriting the `href` of link `n`, which is none of the first `n`. */
  lemma RewriteStep(hs': seq<Option<string>>, hs: seq<Option<string>>, h0: seq<Option<string>>, links: seq<nat>,
                    pathToRoot: string, n: nat)
    requires n < |links| && links[n] < |h0| && links[n] !in links[..n]
    requires RewrittenFirst(hs, h0, links, pathToRoot, n)
    requires |hs'| == |hs| && forall k :: 0 <= k < |hs| && k != links[n] ==> hs'[k] == hs[k]
    requires hs'[links[n]] == RewriteHref(pathToRoot, hs[links[n]])
    ensures RewrittenFirst(hs', h0, links, pathToRoot, n + 1)
    ensures hs'[links[n]] == RewriteHref(pathToRoot, h0[links[n]])
  {
    assert links[..n + 1] == links[..n] + [links[n]];
  }

  /** Link `j` is active, judged on its rewritten `href`. */
  predicate LinkActive(hrefs: seq<Option<string>>, links: seq<nat>, j: nat, current: string, page: Page)
    requires j < |links| && LinksIn(links, |hrefs|)
  {
    IsActive(j, HrefProperty(page.resolve, RewriteHref(page.pathToRoot, hrefs[links[j]])), current, page.pathToRoot)
  }

  /** The links among the first `n` that are active. */
  function ActiveFirst(hrefs: seq<Option<string>>, links: seq<nat>, current: string, page: Page, n: nat): set<nat>
    requires n <= |links| && LinksIn(links, |hrefs|)
  {
    if n == 0 then {}
    else
      ActiveFirst(hrefs, links, current, page, n - 1) +
      (if LinkActive(hrefs, links, n - 1, current, page) then {links[n - 1]} else {})
  }

  /** What the active links among the first `n` expand. */
  function ExpandedFirst(nodes: seq<Element>, classes: seq<set<string>>, hrefs: seq<Option<string>>, links: seq<nat>,
                         current: string, page: Page, n: nat): set<nat>
    requires WellFormed(nodes) && |classes| == |nodes| && |hrefs| == |nodes|
    requires n <= |links| && LinksIn(links, |nodes|)
  {
    if n == 0 then {}
    else
      ExpandedFirst(nodes, classes, hrefs, links, current, page, n - 1) +
      (if LinkActive(hrefs, links, n - 1, current, page) then ExpandTargets(nodes, classes, links[n - 1]) else {})
  }

  /** The loop's sets after one more link. */
  lemma FirstStep(nodes: seq<Element>, classes: seq<set<string>>, hrefs: seq<Option<string>>, links: seq<nat>,
                  current: string, page: Page, n: nat)
    requires WellFormed(nodes) && |classes| == |nodes| && |hrefs| == |nodes|
    requires n < |links| && LinksIn(links, |nodes|)
    ensures ActiveFirst(hrefs, links, current, page, n + 1) ==
      ActiveFirst(hrefs, links, current, page, n) +
      (if LinkActive(hrefs, links, n, current, page) then {links[n]} else {})
    ensures ExpandedFirst(nodes, classes, hrefs, links, current, page, n + 1) ==
      ExpandedFirst(nodes, classes, hrefs, links, current, page, n) +
      (if LinkActive(hrefs, links, n, current, page) then ExpandTargets(nodes, classes, links[n]) else {})
  {
  }

  /** A link ends up marked by the loop exactly when it is active: there is no
      early exit, so every matching link is marked. */
  lemma {:induction false} ActiveFirstIff(hrefs: seq<Option<string>>, links: seq<nat>, current: string, page: Page, n: nat, j: nat)
    requires n <= |links| && LinksIn(links, |hrefs|) && j < |links|
    requires forall a, b :: 0 <= a < b < |links| ==> links[a] < links[b]
    ensures links[j] in ActiveFirst(hrefs, links, current, page, n) <==> j < n && LinkActive(hrefs, links, j, current, page)
  {
    if n > 0 {
      ActiveFirstIff(hrefs, links, current, page, n - 1, j);
      if j != n - 1 {
        assert links[j] != links[n - 1];
      }
    }
  }

  /** After the loop a link carries `active` exactly when it already did or
      the active-page rule picks it. */
  lemma MarkedActiveIff(cs: seq<set<string>>, c0: seq<set<string>>, hrefs: seq<Option<string>>, links: seq<nat>,
                        current: string, page: Page, expanded: set<nat>, j: nat)
    requires |hrefs| == |c0| && LinksIn(links, |c0|) && Increasing(links) && j < |links|
    requires IsMarked(cs, c0, ActiveFirst(hrefs, links, current, page, |links|), expanded)
    ensures ACTIVE in cs[links[j]] <==> ACTIVE in c0[links[j]] || LinkActive(hrefs, links, j, current, page)
  {
    ActiveFirstIff(hrefs, links, current, page, |links|, j);
  }

  /** Only links are marked active. */
  lemma {:induction false} ActiveFirstAreLinks(hrefs: seq<Option<string>>, links: seq<nat>, current: string, page: Page, n: nat)
    requires n <= |links| && LinksIn(links, |hrefs|)
    ensures forall x :: x in ActiveFirst(hrefs, links, current, page, n) ==> x in links[..n]
  {
    if n > 0 {
      ActiveFirstAreLinks(hrefs, links, current, page, n - 1);
      assert links[..n] == links[..n - 1] + [links[n - 1]];
    }
  }

  /** Whatever is expanded is a chapter item above some active link. */
  lemma {:induction false} ExpandedFirstAreChapterItems(nodes: seq<Element>, classes: seq<set<string>>, hrefs: seq<Option<string>>,
                                                         links: seq<nat>, current: string, page: Page, n: nat)
    requires WellFormed(nodes) && |classes| == |nodes| && |hrefs| == |nodes|
    requires n <= |links| && LinksIn(links, |nodes|)
    ensures forall t :: t in ExpandedFirst(nodes, classes, hrefs, links, current, page, n) ==>
      t < |nodes| && CHAPTER_ITEM in classes[t] &&
      exists j :: 0 <= j < n && LinkActive(hrefs, links, j, current, page) && t in ExpandTargets(nodes, classes, links[j])
  {
    if n > 0 {
      ExpandedFirstAreChapterItems(nodes, classes, hrefs, links, current, page, n - 1);
    }
  }

  // ---------------------------------------------------------------------
  // Scroll position and toggles
  // ---------------------------------------------------------------------

  /** The offset that assigning the stored text to `scrollTop` gives, in
      whole pixels: the text is read as a number with the white space around
      it ignored and the fractional part dropped; text that is not a decimal
      number reads as NaN, which scrolls to the top. */
  function ScrollValue(s: string): (n: nat)
    ensures n < MAX_SCROLL
  {
    var t := Trim(s);
    match SplitOnce(t, ".")
    case None => WholePixels(t)
    case Some((whole, frac)) =>
      if AllDigits(frac) && whole != "" && whole != "+" then WholePixels(whole) else 0
  }

  /** The integral part of the offset; one too large to be exact is NaN-like. */
  function WholePixels(w: string): (n: nat)
    ensures n < MAX_SCROLL
    ensures |w| > 0 && AllDigits(w) && DigitsValue(w) < MAX_SCROLL ==> n == DigitsValue(w)
  {
    match ParseUnsigned(w, MAX_SCROLL)
    case None => 0
    case Some(v) => v
  }

  /** A plain decimal offset restores exactly. */
  lemma ScrollValueDigits(s: string)
    requires |s| > 0 && AllDigits(s) && DigitsValue(s) < MAX_SCROLL
    ensures ScrollValue(s) == DigitsValue(s)
  {
    assert IsDigit(s[0]) && IsDigit(s[|s| - 1]);
    TrimKeeps(s);
    forall j | 0 <= j < |s| ensures s[j] != '.' { assert IsDigit(s[j]); }
    FindCharNone(s, '.');
  }

  /** A fractional offset, as a zoomed page stores it, restores its whole
      pixels. */
  lemma ScrollValueFraction(w: string, f: string)
    requires |w| > 0 && AllDigits(w) && AllDigits(f) && DigitsValue(w) < MAX_SCROLL
    ensures ScrollValue(w + "." + f) == DigitsValue(w)
  {
    var s := w + "." + f;
    assert s[0] == w[0];
    assert s[|s| - 1] == if |f| > 0 then f[|f| - 1] else '.';
    TrimKeeps(s);
    forall j | 0 <= j < |w| ensures w[j] != '.' { assert IsDigit(w[j]); }
    FindCharAfter(w, '.', f);
  }

  /** White space around the stored text does not change the offset. */
  lemma ScrollValuePadded(s: string, c: char)
    requires IsSpace(c)
    ensures ScrollValue([c] + s) == ScrollValue(s) && ScrollValue(s + [c]) == ScrollValue(s)
  {
    TrimPadded(s, c);
  }

  /** The string a click stores is non-empty (so it counts as present) and
      reads back as the same offset. */
  lemma ScrollRoundTrip(n: nat)
    requires n < MAX_SCROLL
    ensures NatToString(n) != "" && ScrollValue(NatToString(n)) == n
  {
    NatToStringDigits(n);
    ScrollValueDigits(NatToString(n));
  }

  /** The first element, in document order, whose class list holds `c`
      (`document.querySelector('.c')`). */
  function FirstWith(cs: seq<set<string>>, c: string, from: nat): (r: Option<nat>)
    ensures r.Some? ==> from <= r.value < |cs| && c in cs[r.value]
    ensures r.Some? ==> forall k :: from <= k < r.value ==> c !in cs[k]
    ensures r.None? ==> forall k :: from <= k < |cs| ==> c !in cs[k]
    decreases |cs| - from
  {
    if from >= |cs| then None
    else if c in cs[from] then Some(from)
    else FirstWith(cs, c, from + 1)
  }

  /** The toggle buttons: anchors carrying the `toggle` class. */
  function ToggleAnchors(nodes: seq<Element>, cs: seq<set<string>>): (r: seq<nat>)
    requires |cs| == |nodes|
    ensures forall j :: 0 <= j < |r| ==> r[j] < |nodes| && nodes[r[j]].tag == "A" && TOGGLE in cs[r[j]]
    ensures forall x :: 0 <= x < |nodes| && nodes[x].tag == "A" && TOGGLE in cs[x] ==> x in r
  {
    var all := Anchors(nodes);
    Filtered(all, cs)
  }

  function Filtered(xs: seq<nat>, cs: seq<set<string>>): (r: seq<nat>)
    requires LinksIn(xs, |cs|)
    ensures forall j :: 0 <= j < |r| ==> r[j] in xs && TOGGLE in cs[r[j]]
    ensures forall x :: x in xs && TOGGLE in cs[x] ==> x in r
  {
    if xs == [] then []
    else (if TOGGLE in cs[xs[0]] then [xs[0]] else []) + Filtered(xs[1..], cs)
  }

  /** `classList.toggle(c)`. */
  function Flip(s: set<string>, c: string): (r: set<string>)
    ensures c in r <==> c !in s
    ensures forall d :: d != c ==> (d in r <==> d in s)
  {
    if c in s then s - {c} else s + {c}
  }

  /** Two toggles restore the class list. */
  lemma FlipTwice(s: set<string>, c: string)
    ensures Flip(Flip(s, c), c) == s
  {
  }

  // ---------------------------------------------------------------------
  // The objects
  // ---------------------------------------------------------------------

  /** The browser's `sessionStorage`: it outlives the page, so a value stored
      on one load is read by the next. */
  class SessionStorage {
    var items: map<string, string>

    constructor(items: map<string, string>)
      ensures this.items == items
    {
      this.items := items;
    }

    function GetItem(key: string): (r: Option<string>)
      reads this
      ensures r.Some? <==> key in items
      ensures r.Some? ==> r.value == items[key]
    {
      if key in items then Some(items[key]) else None
    }

    method SetItem(key: string, value: string)
      modifies this
      ensures items == old(items)[key := value]
    {
      items := items[key := value];
    }

    method RemoveItem(key: string)
      modifies this
      ensures items == old(items) - {key}
      ensures key !in items
    {
      items := items - {key};
    }
  }

  class Sidebar {
    /** The rendered table of contents; its shape never changes. */
    const nodes: seq<Element>
    var classes: seq<set<string>>
    var hrefs: seq<Option<string>>
    /** The anchors, captured when the element is attached. */
    var links: seq<nat>
    /** The toggle buttons a click listener was attached to. */
    var toggles: seq<nat>
    var scrollTop: nat
    /** The element last scrolled into the centre of the view. */
    var centred: Option<nat>
    /** Whether the click listener that remembers the scroll offset is on. */
    var listening: bool

    ghost predicate Valid()
      reads this
    {
      WellFormed(nodes) && |classes| == |nodes| && |hrefs| == |nodes| &&
      LinksIn(links, |nodes|) && LinksIn(toggles, |nodes|)
    }

    /** The element with its table of contents rendered (`innerHTML`), not yet
        attached. */
    constructor(nodes: seq<Element>, classes: seq<set<string>>, hrefs: seq<Option<string>>)
      requires WellFormed(nodes) && |classes| == |nodes| && |hrefs| == |nodes|
      ensures Valid()
      ensures this.nodes == nodes && this.classes == classes && this.hrefs == hrefs
      ensures links == [] && toggles == [] && scrollTop == 0 && centred == None && !listening
    {
      this.nodes := nodes;
      this.classes := classes;
      this.hrefs := hrefs;
      links := [];
      toggles := [];
      scrollTop := 0;
      centred := None;
      listening := false;
    }

    /** The upward walk from an active link: expand its chapter-item parent,
        then the chapter-item previous sibling of each list item up to the root.
        Only `expanded` is added, and only on those elements. */
    method ExpandAncestors(l: nat)
      requires Valid() && l < |nodes|
      modifies this`classes
      ensures Valid()
      ensures AddedClass(classes, old(classes), ExpandTargets(nodes, old(classes), l), EXPANDED)
    {
      ghost var c0 := classes;
      ghost var done: set<nat> := {};
      var parent := nodes[l].parent;
      if parent >= 0 && CHAPTER_ITEM in classes[parent] {
        classes := classes[parent := classes[parent] + {EXPANDED}];
        done := {parent as nat};
      }
      while parent >= 0
        invariant -1 <= parent < |nodes|
        invariant AddedClass(classes, c0, done, EXPANDED)
        invariant done + WalkTargets(nodes, c0, parent) == ExpandTargets(nodes, c0, l)
        decreases parent + 1
      {
        var e := nodes[parent];
        if e.tag == "LI" && e.prev >= 0 {
          if CHAPTER_ITEM in classes[e.prev] {
            classes := classes[e.prev := classes[e.prev] + {EXPANDED}];
            done := done + {e.prev as nat};
          }
        }
        parent := e.parent;
      }
    }

    /** The state after the link loop has handled the first `i` links, starting
        from class lists `c0` and attributes `h0`. */
    ghost predicate MarkedUpTo(i: nat, current: string, page: Page, c0: seq<set<string>>, h0: seq<Option<string>>)
      reads this
    {
      Valid() && Increasing(links) && i <= |links| && |c0| == |nodes| && |h0| == |nodes| &&
      RewrittenFirst(hrefs, h0, links, page.pathToRoot, i) &&
      IsMarked(classes, c0, ActiveFirst(h0, links, current, page, i), ExpandedFirst(nodes, c0, h0, links, current, page, i))
    }

    /** The branch for an active link: mark it `active` and expand around it. */
    method ActivateLink(link: nat, ghost c0: seq<set<string>>, ghost act: set<nat>, ghost exp: set<nat>)
      requires Valid() && link < |nodes| && |c0| == |nodes|
      requires IsMarked(classes, c0, act, exp)
      modifies this`classes
      ensures Valid()
      ensures IsMarked(classes, c0, act + {link}, exp + ExpandTargets(nodes, c0, link))
    {
      MarkStep(classes, c0, act, exp, link);
      classes := classes[link := classes[link] + {ACTIVE}];
      ghost var c1 := classes;
      ExpandAncestors(link);
      WalkTargetsByChapterItems(nodes, c1, c0, nodes[link].parent);
      MarkedThenExpanded(classes, c1, c0, act + {link}, exp, ExpandTargets(nodes, c0, link));
    }

    /** One pass of the link loop, for link `i`: rewrite its `href` if it is
        relative, and if it is active mark it and expand around it. */
    method VisitLink(i: nat, current: string, page: Page, ghost c0: seq<set<string>>, ghost h0: seq<Option<string>>)
      requires MarkedUpTo(i, current, page, c0, h0) && i < |links|
      modifies this`classes, this`hrefs
      ensures MarkedUpTo(i + 1, current, page, c0, h0)
    {
      var link := links[i];
      assert link !in links[..i];
      ghost var act := ActiveFirst(h0, links, current, page, i);
      ghost var exp := ExpandedFirst(nodes, c0, h0, links, current, page, i);
      ghost var hs := hrefs;
      var href := hrefs[link];
      if href.Some? && href.value != "" && href.value[0] != '#' && !IsAbsoluteUrl(href.value) {
        hrefs := hrefs[link := Some(page.pathToRoot + href.value)];
      }
      RewriteStep(hrefs, hs, h0, links, page.pathToRoot, i);
      FirstStep(nodes, c0, h0, links, current, page, i);
      if HrefProperty(page.resolve, hrefs[link]) == current ||
         (i == 0 && page.pathToRoot == "" && EndsWith(current, "/" + INDEX_PAGE)) {
        ActivateLink(link, c0, act, exp);
      }
    }

    /** The link loop: rewrite each relative link, mark the active ones and
        expand around them; there is no early exit. */
    method MarkLinks(current: string, page: Page)
      requires Valid() && Increasing(links)
      modifies this`classes, this`hrefs
      ensures MarkedUpTo(|links|, current, page, old(classes), old(hrefs))
    {
      ghost var c0, h0 := classes, hrefs;
      var n := |links|;
      for i := 0 to n
        invariant MarkedUpTo(i, current, page, c0, h0)
      {
        VisitLink(i, current, page, c0, h0);
      }
    }

    /** Read and forget the remembered scroll offset; apply it when present,
        otherwise centre the active entry. */
    method RestoreScroll(storage: SessionStorage)
      requires Valid()
      modifies this`scrollTop, this`centred, storage
      ensures Valid()
      ensures storage.items == old(storage.items) - {SCROLL_KEY}
      ensures SCROLL_KEY in old(storage.items) && old(storage.items)[SCROLL_KEY] != "" ==>
        scrollTop == ScrollValue(old(storage.items)[SCROLL_KEY]) && centred == old(centred)
      ensures !(SCROLL_KEY in old(storage.items) && old(storage.items)[SCROLL_KEY] != "") ==>
        scrollTop == old(scrollTop) &&
        (match FirstWith(classes, ACTIVE, 0) case Some(a) => centred == Some(a) case None => centred == old(centred))
    {
      var stored := storage.GetItem(SCROLL_KEY);
      storage.RemoveItem(SCROLL_KEY);
      if stored.Some? && stored.value != "" {
        scrollTop := ScrollValue(stored.value);
      } else {
        var activeSection := FirstWith(classes, ACTIVE, 0);
        if activeSection.Some? {
          centred := activeSection;
        }
      }
    }

    /** `connectedCallback`: the whole attach sequence. */
    method Connect(page: Page, storage: SessionStorage)
      requires Valid()
      modifies this, storage
      ensures Valid()
      ensures links == Anchors(nodes) && listening
      ensures RewrittenFirst(hrefs, old(hrefs), links, page.pathToRoot, |links|)
      ensures IsMarked(classes, old(classes), ActiveFirst(old(hrefs), links, CurrentPage(page.location), page, |links|),
                       ExpandedFirst(nodes, old(classes), old(hrefs), links, CurrentPage(page.location), page, |links|))
      ensures storage.items == old(storage.items) - {SCROLL_KEY}
      ensures SCROLL_KEY in old(storage.items) && old(storage.items)[SCROLL_KEY] != "" ==>
        scrollTop == ScrollValue(old(storage.items)[SCROLL_KEY]) && centred == old(centred)
      ensures !(SCROLL_KEY in old(storage.items) && old(storage.items)[SCROLL_KEY] != "") ==>
        scrollTop == old(scrollTop) &&
        (match FirstWith(classes, ACTIVE, 0) case Some(a) => centred == Some(a) case None => centred == old(centred))
      ensures toggles == ToggleAnchors(nodes, classes)
    {
      ghost var top0, centred0 := scrollTop, centred;
      links := Anchors(nodes);
      var current := CurrentPage(page.location);
      MarkLinks(current, page);
      listening := true;
      assert scrollTop == top0 && centred == centred0;
      RestoreScroll(storage);
      toggles := ToggleAnchors(nodes, classes);
    }

    /** The click listener: a click whose target is an anchor stores the
        current offset. A click on text inside an anchor targets that text's
        element and stores nothing. */
    method Click(target: nat, storage: SessionStorage)
      requires Valid() && target < |nodes|
      modifies storage
      ensures listening && nodes[target].tag == "A" ==>
        storage.items == old(storage.items)[SCROLL_KEY := NatToString(scrollTop)]
      ensures !(listening && nodes[target].tag == "A") ==> storage.items == old(storage.items)
    {
      if listening && nodes[target].tag == "A" {
        storage.SetItem(SCROLL_KEY, NatToString(scrollTop));
      }
    }

    /** A click on toggle button `el` flips `expanded` on its parent; clicks
        elsewhere, and a button without a parent element in the tree, change
        nothing here. */
    method ToggleClick(el: nat)
      requires Valid() && el < |nodes|
      modifies this`classes
      ensures Valid()
      ensures el in toggles && nodes[el].parent >= 0 ==>
        classes == old(classes)[nodes[el].parent := Flip(old(classes)[nodes[el].parent], EXPANDED)]
      ensures !(el in toggles && nodes[el].parent >= 0) ==> classes == old(classes)
    {
      if el in toggles && nodes[el].parent >= 0 {
        var p := nodes[el].parent;
        classes := classes[p := Flip(classes[p], EXPANDED)];
      }
    }
  }
}
