/**
 * The parsed HTML tree that the title extractor walks, and the handful of
 * tree queries it uses: descendant text, whitespace stripping, and the
 * three CSS selectors `h3`, `div.g` and `a[href^="/url"]`.
 *
 * Tokenising HTML is not modelled: a document is the sequence of top-level
 * nodes the parser produced.
 */
module Markup {
  import opened Wrappers

  /** A parsed HTML node: an element, or a run of character data. */
  datatype Node =
    | Element(tag: string, classes: set<string>, href: Option<string>, children: seq<Node>)
    | Text(data: string)
  {
    /** The child nodes; character data has none. */
    function Children(): seq<Node> {
      if Element? then children else []
    }
  }

  // ---------------------------------------------------------------------------
  // Text of a node
  // ---------------------------------------------------------------------------

  /** The concatenated character data below `n`, in document order (`tag.text`). */
  function TextOf(n: Node): string
    decreases n
  {
    match n
    case Text(data) => data
    case Element(_, _, _, children) => TextOfAll(children)
  }

  function TextOfAll(ns: seq<Node>): string
    decreases ns
  {
    if ns == [] then "" else TextOf(ns[0]) + TextOfAll(ns[1..])
  }

  /** The characters for which Python's `str.isspace` holds. */
  predicate IsSpace(c: char) {
    || '\t' <= c <= '\r'
    || '\U{1c}' <= c <= ' '
    || c == '\U{85}' || c == '\U{a0}' || c == '\U{1680}'
    || '\U{2000}' <= c <= '\U{200a}'
    || c == '\U{2028}' || c == '\U{2029}' || c == '\U{202f}' || c == '\U{205f}'
    || c == '\U{3000}'
  }

  /** How many whitespace characters `s` starts with. */
  function LeadingSpaces(s: string): (n: nat)
    ensures n <= |s|
    ensures forall k :: 0 <= k < n ==> IsSpace(s[k])
    ensures n == |s| || !IsSpace(s[n])
  {
    if s == [] || !IsSpace(s[0]) then 0
    else
      var n := 1 + LeadingSpaces(s[1..]);
      assert forall k :: 1 <= k < n ==> s[k] == s[1..][k - 1];
      n
  }

  /** How many whitespace characters `s` ends with. */
  function TrailingSpaces(s: string): (n: nat)
    ensures n <= |s|
    ensures forall k :: |s| - n <= k < |s| ==> IsSpace(s[k])
    ensures n == |s| || !IsSpace(s[|s| - n - 1])
  {
    if s == [] || !IsSpace(s[|s| - 1]) then 0
    else 1 + TrailingSpaces(s[..|s| - 1])
  }

  /** Python's `str.strip()` with no argument. */
  function Strip(s: string): string {
    var t := s[LeadingSpaces(s)..];
    t[..|t| - TrailingSpaces(t)]
  }

  /**
   * What `Strip` leaves: the infix of `s` that neither starts nor ends with
   * whitespace and has only whitespace around it.
   */
  lemma StripIsTrimmedInfix(s: string)
    ensures var r, i := Strip(s), LeadingSpaces(s);
            && i + |r| <= |s| && r == s[i..i + |r|]
            && (forall k :: 0 <= k < i ==> IsSpace(s[k]))
            && (forall k :: i + |r| <= k < |s| ==> IsSpace(s[k]))
            && (r == [] || (!IsSpace(r[0]) && !IsSpace(r[|r| - 1])))
  {
    var i := LeadingSpaces(s);
    var t := s[i..];
    var n := TrailingSpaces(t);
    var r := t[..|t| - n];
    assert r == Strip(s);
    assert r == s[i..i + |r|];
    assert forall k :: i + |r| <= k < |s| ==> IsSpace(s[k]) by {
      forall k | i + |r| <= k < |s|
        ensures IsSpace(s[k])
      {
        assert s[k] == t[k - i];
      }
    }
    assert r == [] || (!IsSpace(r[0]) && !IsSpace(r[|r| - 1])) by {
      if r != [] {
        assert r[0] == t[0] == s[i];
        assert r[|r| - 1] == t[|t| - n - 1];
      }
    }
  }

  /** A text that neither starts nor ends with whitespace is its own stripped form. */
  lemma StripTrimmed(s: string)
    requires s == [] || (!IsSpace(s[0]) && !IsSpace(s[|s| - 1]))
    ensures Strip(s) == s
  {
    if s != [] {
      assert LeadingSpaces(s) == 0 && s[0..] == s;
      assert TrailingSpaces(s) == 0 && s[..|s|] == s;
    }
  }

  /** Stripping twice is stripping once. */
  lemma StripIdempotent(s: string)
    ensures Strip(Strip(s)) == Strip(s)
  {
    StripIsTrimmedInfix(s);
    StripTrimmed(Strip(s));
  }

  // ---------------------------------------------------------------------------
  // Document order
  // ---------------------------------------------------------------------------

  /** `n` followed by all its descendants, in document (pre-)order. */
  function Subtree(n: Node): (r: seq<Node>)
    ensures |r| > 0 && r[0] == n
    decreases n
  {
    match n
    case Element(_, _, _, children) => [n] + Descendants(children)
    case Text(_) => [n]
  }

  /** Every node of the forest `ns`, in document order. */
  function Descendants(ns: seq<Node>): seq<Node>
    decreases ns
  {
    if ns == [] then [] else Subtree(ns[0]) + Descendants(ns[1..])
  }

  /** A node inside the subtree of `r` is inside every subtree that contains `r`. */
  lemma {:induction false} SubtreeClosed(n: Node, r: Node, x: Node)
    requires r in Subtree(n) && x in Subtree(r)
    ensures x in Subtree(n)
    decreases n
  {
    if r != n {
      DescendantsClosed(n.Children(), r, x);
    }
  }

  /** A node inside the subtree of `r` is a node of every forest that contains `r`. */
  lemma {:induction false} DescendantsClosed(ns: seq<Node>, r: Node, x: Node)
    requires r in Descendants(ns) && x in Subtree(r)
    ensures x in Descendants(ns)
    decreases ns
  {
    assert ns != [];
    if r in Subtree(ns[0]) {
      SubtreeClosed(ns[0], r, x);
    } else {
      DescendantsClosed(ns[1..], r, x);
    }
  }

  // ---------------------------------------------------------------------------
  // Selectors
  // ---------------------------------------------------------------------------

  /** The three CSS selectors the extractor uses. */
  datatype Selector =
    | TagIs(name: string)                              // `h3`
    | TagWithClass(name: string, cls: string)          // `div.g`
    | TagWithHrefPrefix(name: string, prefix: string)  // `a[href^="/url"]`

  predicate Matches(n: Node, sel: Selector) {
    n.Element? &&
    match sel
    case TagIs(name) => n.tag == name
    case TagWithClass(name, cls) => n.tag == name && cls in n.classes
    case TagWithHrefPrefix(name, prefix) =>
      n.tag == name && n.href.Some? && prefix <= n.href.value
  }

  const H3 := TagIs("h3")
  const ResultContainer := TagWithClass("div", "g")
  const RedirectAnchor := TagWithHrefPrefix("a", "/url")

  /** The nodes of `ns` that match `sel`, in their order in `ns`. */
  function Filter(ns: seq<Node>, sel: Selector): (r: seq<Node>)
    ensures forall x :: x in r <==> x in ns && Matches(x, sel)
  {
    if ns == [] then []
    else (if Matches(ns[0], sel) then [ns[0]] else []) + Filter(ns[1..], sel)
  }

  /**
   * Every node of the forest `ns` that matches `sel`, in document order:
   * BeautifulSoup's `find_all` / `select` on a tag, which look at the
   * descendants of that tag and not at the tag itself.
   */
  function SelectAll(ns: seq<Node>, sel: Selector): seq<Node> {
    Filter(Descendants(ns), sel)
  }

  /** `tag.select_one(sel)`: the first descendant of `n` that matches `sel`. */
  function SelectOne(n: Node, sel: Selector): (r: Option<Node>)
    ensures r.Some? ==> Matches(r.value, sel) && r.value in Descendants(n.Children())
    ensures r.None? ==> forall x :: x in Descendants(n.Children()) ==> !Matches(x, sel)
  {
    var found := SelectAll(n.Children(), sel);
    if found == [] then None
    else
      assert found[0] in found;
      Some(found[0])
  }

  /** The first node `Filter` keeps is the first matching node of `ns`. */
  lemma {:induction false} FilterHeadIsFirstMatch(ns: seq<Node>, sel: Selector)
    requires Filter(ns, sel) != []
    ensures exists i :: 0 <= i < |ns| && ns[i] == Filter(ns, sel)[0] &&
                        forall j :: 0 <= j < i ==> !Matches(ns[j], sel)
  {
    if !Matches(ns[0], sel) {
      FilterHeadIsFirstMatch(ns[1..], sel);
      var i :| 0 <= i < |ns[1..]| && ns[1..][i] == Filter(ns[1..], sel)[0] &&
               forall j :: 0 <= j < i ==> !Matches(ns[1..][j], sel);
      assert ns[i + 1] == Filter(ns, sel)[0];
      forall j | 0 <= j < i + 1
        ensures !Matches(ns[j], sel)
      {
        if j > 0 {
          assert ns[j] == ns[1..][j - 1];
        }
      }
    } else {
      assert ns[0] == Filter(ns, sel)[0];
    }
  }

  /** `select_one` answers the first match in document order. */
  lemma SelectOneIsFirst(n: Node, sel: Selector)
    requires SelectOne(n, sel).Some?
    ensures exists i :: 0 <= i < |Descendants(n.Children())| &&
                        Descendants(n.Children())[i] == SelectOne(n, sel).value &&
                        forall j :: 0 <= j < i ==> !Matches(Descendants(n.Children())[j], sel)
  {
    var ds := Descendants(n.Children());
    assert SelectOne(n, sel).value == Filter(ds, sel)[0];
    FilterHeadIsFirstMatch(ds, sel);
  }
}
