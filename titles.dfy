/**
 * The heuristic title extractor of `GoogleScraper.extract_titles`, as
 * functions over a parsed document, and what it guarantees.
 *
 * Three passes fill a list of candidate titles: the stripped text of every
 * `h3`; the first `h3` of every `div.g`; the first `h3` of every
 * `a[href^="/url"]` whose title is not yet in the list. A final pass keeps
 * the candidates longer than five characters, each once, at its first
 * occurrence.
 *
 * Each pass is written as a function recursing on the LAST element of its
 * input, so that it is the value of the corresponding loop after any number
 * of iterations (see `GoogleScraper.ExtractTitles`).
 */
module Titles {
  import opened Wrappers
  import opened Markup

  /** Titles of this length or shorter are dropped as noise. */
  const MinTitleLength := 5

  /** `heading.text.strip()` */
  function TitleOf(h: Node): string {
    Strip(TextOf(h))
  }

  // ---------------------------------------------------------------------------
  // The three passes
  // ---------------------------------------------------------------------------

  /** Pass 1: the non-blank titles of the headings `hs`, in their order. */
  function HeadingTitles(hs: seq<Node>): seq<string> {
    if hs == [] then []
    else
      var h := hs[|hs| - 1];
      HeadingTitles(hs[..|hs| - 1]) + (if TitleOf(h) != "" then [TitleOf(h)] else [])
  }

  /** Pass 1 collects exactly the non-blank titles of the headings. */
  lemma {:induction false} HeadingTitlesMembers(hs: seq<Node>)
    ensures forall h :: h in hs && TitleOf(h) != "" ==> TitleOf(h) in HeadingTitles(hs)
    ensures forall t :: t in HeadingTitles(hs) ==> t != "" && exists h :: h in hs && TitleOf(h) == t
  {
    if hs != [] {
      var hs', h := hs[..|hs| - 1], hs[|hs| - 1];
      HeadingTitlesMembers(hs');
      assert hs == hs' + [h];
      assert forall x :: x in hs ==> x in hs' || x == h;
    }
  }

  /** `n.select_one('h3')` with a non-blank title, as that title. */
  function FirstHeadingTitle(n: Node): (r: Option<string>)
    ensures r.Some? ==> r.value != ""
  {
    match SelectOne(n, H3)
    case None => None
    case Some(h) => if TitleOf(h) != "" then Some(TitleOf(h)) else None
  }

  /** Pass 2: the title of the first heading of each result container `rs`. */
  function ContainerTitles(rs: seq<Node>): seq<string> {
    if rs == [] then []
    else
      var n := rs[|rs| - 1];
      ContainerTitles(rs[..|rs| - 1]) + (if FirstHeadingTitle(n).Some? then [FirstHeadingTitle(n).value] else [])
  }

  /** One more container extends pass 2 by at most its own title. */
  lemma ContainerTitlesStep(rs: seq<Node>, k: nat)
    requires k < |rs|
    ensures ContainerTitles(rs[..k + 1]) == ContainerTitles(rs[..k]) +
              (if FirstHeadingTitle(rs[k]).Some? then [FirstHeadingTitle(rs[k]).value] else [])
  {
    assert rs[..k + 1][..k] == rs[..k];
  }

  /** Pass 2 yields only titles of first headings of the containers. */
  lemma {:induction false} ContainerTitlesMembers(rs: seq<Node>)
    ensures forall t :: t in ContainerTitles(rs) ==> exists n :: n in rs && FirstHeadingTitle(n) == Some(t)
  {
    if rs != [] {
      ContainerTitlesMembers(rs[..|rs| - 1]);
      assert forall x :: x in rs[..|rs| - 1] ==> x in rs;
    }
  }

  /**
   * Pass 3: `titles` extended with the title of the first heading of each
   * redirect anchor in `es`, when that title is not in the list yet.
   */
  function WithAnchorTitles(titles: seq<string>, es: seq<Node>): seq<string> {
    if es == [] then titles
    else
      var acc := WithAnchorTitles(titles, es[..|es| - 1]);
      match FirstHeadingTitle(es[|es| - 1])
      case None => acc
      case Some(t) => if t !in acc then acc + [t] else acc
  }

  /** One more anchor adds its title unless it is blank or already present. */
  lemma WithAnchorTitlesStep(titles: seq<string>, es: seq<Node>, k: nat)
    requires k < |es|
    ensures WithAnchorTitles(titles, es[..k + 1]) ==
              var acc := WithAnchorTitles(titles, es[..k]);
              match FirstHeadingTitle(es[k])
              case None => acc
              case Some(t) => if t !in acc then acc + [t] else acc
  {
    assert es[..k + 1][..k] == es[..k];
  }

  /**
   * Pass 3 only appends: it keeps `titles` as a prefix, and what it adds
   * are titles of first headings of the anchors, none of them repeated.
   */
  lemma {:induction false} WithAnchorTitlesExtends(titles: seq<string>, es: seq<Node>)
    ensures var r := WithAnchorTitles(titles, es);
            && |titles| <= |r| && r[..|titles|] == titles
            && (forall t :: t in r[|titles|..] ==> exists n :: n in es && FirstHeadingTitle(n) == Some(t))
            && (forall i, j :: |titles| <= i < j < |r| ==> r[i] != r[j])
  {
    if es != [] {
      var es' := es[..|es| - 1];
      WithAnchorTitlesExtends(titles, es');
      var acc := WithAnchorTitles(titles, es');
      assert forall x :: x in es' ==> x in es;
      match FirstHeadingTitle(es[|es| - 1])
      case None =>
      case Some(t) =>
        if t !in acc {
          var r := acc + [t];
          assert r[|titles|..] == acc[|titles|..] + [t];
          forall i, j | |titles| <= i < j < |r|
            ensures r[i] != r[j]
          {
            if j == |acc| {
              assert r[i] == acc[i] && acc[i] in acc;
            }
          }
        }
    }
  }

  /** Every candidate the three passes accumulate, in the order they are found. */
  function Candidates(doc: seq<Node>): seq<string> {
    var afterHeadings := HeadingTitles(SelectAll(doc, H3));
    var afterContainers := afterHeadings + ContainerTitles(SelectAll(doc, ResultContainer));
    WithAnchorTitles(afterContainers, SelectAll(doc, RedirectAnchor))
  }

  // ---------------------------------------------------------------------------
  // The final filter
  // ---------------------------------------------------------------------------

  /** `title and len(title) > 5` */
  predicate LongEnough(t: string) {
    t != "" && |t| > MinTitleLength
  }

  /**
   * The final loop: each candidate long enough, once, at its first
   * occurrence. The result holds exactly the long-enough candidates, without
   * repetition.
   */
  function CleanTitles(ts: seq<string>): seq<string> {
    if ts == [] then []
    else
      var c := CleanTitles(ts[..|ts| - 1]);
      var t := ts[|ts| - 1];
      if LongEnough(t) && t !in c then c + [t] else c
  }

  /**
   * The filtered list holds exactly the long-enough candidates, without
   * repetition.
   */
  lemma {:induction false} CleanTitlesMembers(ts: seq<string>)
    ensures var r := CleanTitles(ts);
            && (forall t :: t in r <==> t in ts && LongEnough(t))
            && (forall i, j :: 0 <= i < j < |r| ==> r[i] != r[j])
  {
    if ts != [] {
      var ts', y := ts[..|ts| - 1], ts[|ts| - 1];
      CleanTitlesMembers(ts');
      assert ts == ts' + [y];
      var c := CleanTitles(ts');
      if LongEnough(y) && y !in c {
        var r := c + [y];
        forall i, j | 0 <= i < j < |r|
          ensures r[i] != r[j]
        {
          if j == |c| {
            assert r[i] == c[i] && c[i] in c;
          }
        }
      }
    }
  }

  /** What `GoogleScraper.extract_titles` returns for the parsed document `doc`. */
  function ExtractedTitles(doc: seq<Node>): seq<string> {
    CleanTitles(Candidates(doc))
  }

  // ---------------------------------------------------------------------------
  // Properties of the final filter
  // ---------------------------------------------------------------------------

  /** The position of the first occurrence of `t` in `ts`. */
  function FirstIndex(ts: seq<string>, t: string): (k: nat)
    requires t in ts
    ensures k < |ts| && ts[k] == t && t !in ts[..k]
  {
    if ts[0] == t then 0
    else
      var k := 1 + FirstIndex(ts[1..], t);
      assert ts[..k] == [ts[0]] + ts[1..][..k - 1];
      k
  }

  /** Appending to a list does not move the first occurrence of what it holds. */
  lemma {:induction false} FirstIndexOfPrefix(ts: seq<string>, y: string, t: string)
    requires t in ts
    ensures FirstIndex(ts + [y], t) == FirstIndex(ts, t)
  {
    if ts[0] != t {
      assert (ts + [y])[1..] == ts[1..] + [y];
      FirstIndexOfPrefix(ts[1..], y, t);
    }
  }

  /** An element new to a list is first seen after everything the list held. */
  lemma FirstOccurrenceOfNewcomer(ts: seq<string>, y: string, t: string)
    requires t in ts && y !in ts
    ensures FirstIndex(ts + [y], t) < FirstIndex(ts + [y], y)
  {
    FirstIndexOfPrefix(ts, y, t);
  }

  /**
   * The survivors keep the order of their first occurrences among the
   * candidates.
   */
  lemma {:induction false} CleanTitlesKeepFirstSeenOrder(ts: seq<string>)
    ensures FirstSeenOrder(ts, CleanTitles(ts))
  {
    if ts != [] {
      var ts' := ts[..|ts| - 1];
      assert ts == ts' + [ts[|ts| - 1]];
      CleanTitlesKeepFirstSeenOrder(ts');
      FirstSeenOrderExtends(ts', ts[|ts| - 1]);
    }
  }

  /** The elements of `r` appear in `ts`, in the order of their first occurrences there. */
  ghost predicate FirstSeenOrder(ts: seq<string>, r: seq<string>) {
    && (forall t :: t in r ==> t in ts)
    && forall i, j :: 0 <= i < j < |r| ==> FirstIndex(ts, r[i]) < FirstIndex(ts, r[j])
  }

  /** One iteration of the final loop keeps the first-seen order. */
  lemma FirstSeenOrderExtends(ts: seq<string>, y: string)
    requires FirstSeenOrder(ts, CleanTitles(ts))
    ensures FirstSeenOrder(ts + [y], CleanTitles(ts + [y]))
  {
    var c := CleanTitles(ts);
    var r := CleanTitles(ts + [y]);
    CleanTitlesMembers(ts);
    assert (ts + [y])[..|ts + [y]| - 1] == ts;
    assert r == if LongEnough(y) && y !in c then c + [y] else c;
    forall i, j | 0 <= i < j < |r|
      ensures FirstIndex(ts + [y], r[i]) < FirstIndex(ts + [y], r[j])
    {
      assert r[i] == c[i] && c[i] in c;
      FirstIndexOfPrefix(ts, y, c[i]);
      if j < |c| {
        assert r[j] == c[j] && c[j] in c;
        FirstIndexOfPrefix(ts, y, c[j]);
      } else {
        FirstOccurrenceOfNewcomer(ts, y, c[i]);
      }
    }
  }

  /** Candidates that are already present change nothing in the filtered list. */
  lemma {:induction false} CleanTitlesIgnoresRepeats(xs: seq<string>, ys: seq<string>)
    requires forall y :: y in ys ==> y in xs
    ensures CleanTitles(xs + ys) == CleanTitles(xs)
    decreases |ys|
  {
    if ys != [] {
      var ys', y := ys[..|ys| - 1], ys[|ys| - 1];
      assert (xs + ys)[..|xs + ys| - 1] == xs + ys';
      assert (xs + ys)[|xs + ys| - 1] == y;
      assert y in ys;
      CleanTitlesIgnoresRepeats(xs, ys');
      var c := CleanTitles(xs + ys');
      CleanTitlesMembers(xs + ys');
      assert LongEnough(y) ==> y in c;
      assert CleanTitles(xs + ys) == (if LongEnough(y) && y !in c then c + [y] else c);
    } else {
      assert xs + ys == xs;
    }
  }

  /** A list without repetitions has as many elements as its set: `len(titles) == len(set(titles))`. */
  lemma {:induction false} DistinctCardinality(r: seq<string>)
    requires forall i, j :: 0 <= i < j < |r| ==> r[i] != r[j]
    ensures |set t | t in r| == |r|
  {
    if r != [] {
      var r' := r[..|r| - 1];
      DistinctCardinality(r');
      assert (set t | t in r) == (set t | t in r') + {r[|r| - 1]};
      assert r[|r| - 1] !in r';
    }
  }

  // ---------------------------------------------------------------------------
  // Properties of the extractor
  // ---------------------------------------------------------------------------

  /** The title of the first `h3` inside any node of the document is a pass-1 title. */
  lemma NestedHeadingIsHeading(doc: seq<Node>, n: Node)
    requires n in Descendants(doc) && FirstHeadingTitle(n).Some?
    ensures FirstHeadingTitle(n).value in HeadingTitles(SelectAll(doc, H3))
  {
    var h := SelectOne(n, H3).value;
    assert h in Subtree(n) by {
      match n
      case Element(_, _, _, children) =>
      case Text(_) =>
    }
    DescendantsClosed(doc, n, h);
    HeadingTitlesMembers(SelectAll(doc, H3));
  }

  /** Pass 2 only yields titles that pass 1 collected. */
  lemma ContainerTitlesAreHeadingTitles(doc: seq<Node>)
    ensures forall t :: t in ContainerTitles(SelectAll(doc, ResultContainer)) ==>
                          t in HeadingTitles(SelectAll(doc, H3))
  {
    ContainerTitlesMembers(SelectAll(doc, ResultContainer));
    forall t | t in ContainerTitles(SelectAll(doc, ResultContainer))
      ensures t in HeadingTitles(SelectAll(doc, H3))
    {
      var n :| n in SelectAll(doc, ResultContainer) && FirstHeadingTitle(n) == Some(t);
      NestedHeadingIsHeading(doc, n);
    }
  }

  /** Pass 3 only adds titles that pass 1 collected. */
  lemma AnchorTitlesAreHeadingTitles(doc: seq<Node>, titles: seq<string>)
    ensures var r := WithAnchorTitles(titles, SelectAll(doc, RedirectAnchor));
            |titles| <= |r| &&
            forall t :: t in r[|titles|..] ==> t in HeadingTitles(SelectAll(doc, H3))
  {
    var r := WithAnchorTitles(titles, SelectAll(doc, RedirectAnchor));
    WithAnchorTitlesExtends(titles, SelectAll(doc, RedirectAnchor));
    forall t | t in r[|titles|..]
      ensures t in HeadingTitles(SelectAll(doc, H3))
    {
      var n :| n in SelectAll(doc, RedirectAnchor) && FirstHeadingTitle(n) == Some(t);
      NestedHeadingIsHeading(doc, n);
    }
  }

  /**
   * Passes 2 and 3 only add headings that pass 1 already collected, so the
   * result is the filtered list of the `h3` titles in document order.
   */
  lemma ExtractedFromHeadingsAlone(doc: seq<Node>)
    ensures ExtractedTitles(doc) == CleanTitles(HeadingTitles(SelectAll(doc, H3)))
  {
    var afterHeadings := HeadingTitles(SelectAll(doc, H3));
    var afterContainers := afterHeadings + ContainerTitles(SelectAll(doc, ResultContainer));
    ContainerTitlesAreHeadingTitles(doc);
    AnchorTitlesAreHeadingTitles(doc, afterContainers);
    WithAnchorTitlesExtends(afterContainers, SelectAll(doc, RedirectAnchor));
    CleanTitlesIgnoresLaterRepeats(afterHeadings, afterContainers, Candidates(doc));
  }

  /**
   * `all` starts with `first` and everything after `first` already occurs
   * in it: the filtered lists agree.
   */
  lemma CleanTitlesIgnoresLaterRepeats(first: seq<string>, middle: seq<string>, all: seq<string>)
    requires |first| <= |middle| <= |all|
    requires middle[..|first|] == first && all[..|middle|] == middle
    requires forall t :: t in middle[|first|..] ==> t in first
    requires forall t :: t in all[|middle|..] ==> t in first
    ensures CleanTitles(all) == CleanTitles(first)
  {
    var added := all[|first|..];
    assert all == first + added;
    forall t | t in added
      ensures t in first
    {
      var i :| 0 <= i < |added| && added[i] == t;
      if |first| + i < |middle| {
        assert t == middle[|first|..][i];
      } else {
        assert t == all[|middle|..][|first| + i - |middle|];
      }
    }
    CleanTitlesIgnoresRepeats(first, added);
  }

  /**
   * What the extractor returns, without reference to the passes: exactly
   * the stripped `h3` titles longer than five characters, each once, in the
   * order the headings first give them.
   */
  lemma ExtractedTitlesCharacterised(doc: seq<Node>)
    ensures var r := ExtractedTitles(doc);
            && (forall t :: t in r <==> |t| > MinTitleLength && exists h :: h in SelectAll(doc, H3) && TitleOf(h) == t)
            && (forall i, j :: 0 <= i < j < |r| ==> r[i] != r[j])
            && |set t | t in r| == |r|
            && (forall t :: t in r ==> Strip(t) == t)
  {
    ExtractedFromHeadingsAlone(doc);
    HeadingTitlesMembers(SelectAll(doc, H3));
    var r := ExtractedTitles(doc);
    CleanTitlesMembers(HeadingTitles(SelectAll(doc, H3)));
    DistinctCardinality(r);
    forall t | t in r
      ensures Strip(t) == t
    {
      var h :| h in SelectAll(doc, H3) && TitleOf(h) == t;
      StripIdempotent(TextOf(h));
    }
  }

  /** The extractor keeps the document order of the headings' first occurrences. */
  lemma ExtractedTitlesInDocumentOrder(doc: seq<Node>)
    ensures FirstSeenOrder(HeadingTitles(SelectAll(doc, H3)), ExtractedTitles(doc))
  {
    ExtractedFromHeadingsAlone(doc);
    CleanTitlesKeepFirstSeenOrder(HeadingTitles(SelectAll(doc, H3)));
  }

  /** A document without any `h3` yields the empty list, not an error. */
  lemma NoHeadingsNoTitles(doc: seq<Node>)
    requires SelectAll(doc, H3) == []
    ensures ExtractedTitles(doc) == []
  {
    ExtractedFromHeadingsAlone(doc);
  }

  /** An `h3` holding nothing but the text `s`. */
  function PlainHeading(s: string): Node {
    Element("h3", {}, None, [Text(s)])
  }

  lemma PlainHeadingSubtree(s: string)
    ensures Filter(Subtree(PlainHeading(s)), H3) == [PlainHeading(s)]
  {
    assert Descendants([Text(s)]) == [Text(s)];
    assert Subtree(PlainHeading(s)) == [PlainHeading(s), Text(s)];
    assert [PlainHeading(s), Text(s)][1..] == [Text(s)];
    assert Filter([Text(s)], H3) == [];
  }

  lemma {:induction false} FilterConcat(xs: seq<Node>, ys: seq<Node>, sel: Selector)
    ensures Filter(xs + ys, sel) == Filter(xs, sel) + Filter(ys, sel)
  {
    if xs != [] {
      assert (xs + ys)[1..] == xs[1..] + ys;
      FilterConcat(xs[1..], ys, sel);
    } else {
      assert xs + ys == ys;
    }
  }

  /** A page of three bare headings selects exactly those headings, in order. */
  lemma PlainHeadingsSelected(a: string, b: string, c: string)
    ensures var doc := [PlainHeading(a), PlainHeading(b), PlainHeading(c)];
            SelectAll(doc, H3) == doc
  {
    var doc := [PlainHeading(a), PlainHeading(b), PlainHeading(c)];
    assert Descendants(doc[3..]) == [];
    assert Descendants(doc[2..]) == Subtree(PlainHeading(c)) + Descendants(doc[3..]);
    assert Descendants(doc[1..]) == Subtree(PlainHeading(b)) + Descendants(doc[2..]);
    assert Descendants(doc) == Subtree(PlainHeading(a)) + Descendants(doc[1..]);
    PlainHeadingSubtree(a);
    PlainHeadingSubtree(b);
    PlainHeadingSubtree(c);
    FilterConcat(Subtree(PlainHeading(c)), [], H3);
    FilterConcat(Subtree(PlainHeading(b)), Descendants(doc[2..]), H3);
    FilterConcat(Subtree(PlainHeading(a)), Descendants(doc[1..]), H3);
  }

  lemma PlainHeadingTitle(s: string)
    requires s != [] && !IsSpace(s[0]) && !IsSpace(s[|s| - 1])
    ensures TitleOf(PlainHeading(s)) == s
  {
    assert TextOfAll([Text(s)]) == s + TextOfAll([]);
    StripTrimmed(s);
  }

  /**
   * Three headings "Short", "A Proper Title Here", "A Proper Title Here":
   * the short one is dropped and the repeat collapsed.
   */
  const ProperTitle := "A Proper Title Here"

  lemma ShortAndRepeatedHeadings()
    ensures var doc := [PlainHeading("Short"), PlainHeading(ProperTitle), PlainHeading(ProperTitle)];
            ExtractedTitles(doc) == [ProperTitle]
  {
    var doc := [PlainHeading("Short"), PlainHeading(ProperTitle), PlainHeading(ProperTitle)];
    ExtractedFromHeadingsAlone(doc);
    PlainHeadingsSelected("Short", ProperTitle, ProperTitle);
    ShortAndRepeatedTitles();
    ShortAndRepeatedFiltered();
  }

  /** Pass 1 on that page collects "Short" and the long title twice. */
  lemma ShortAndRepeatedTitles()
    ensures var doc := [PlainHeading("Short"), PlainHeading(ProperTitle), PlainHeading(ProperTitle)];
            HeadingTitles(doc) == ["Short", ProperTitle, ProperTitle]
  {
    assert "Short"[0] == 'S' && "Short"[4] == 't';
    PlainHeadingTitle("Short");
    assert ProperTitle[0] == 'A' && ProperTitle[18] == 'e';
    PlainHeadingTitle(ProperTitle);
    ThreeHeadingTitles(PlainHeading("Short"), PlainHeading(ProperTitle), PlainHeading(ProperTitle));
  }

  lemma ThreeHeadingTitles(a: Node, b: Node, c: Node)
    requires TitleOf(a) != "" && TitleOf(b) != "" && TitleOf(c) != ""
    ensures HeadingTitles([a, b, c]) == [TitleOf(a), TitleOf(b), TitleOf(c)]
  {
    assert HeadingTitles([a]) == [TitleOf(a)] by {
      HeadingTitlesSnoc([], a);
      assert [] + [a] == [a];
    }
    assert HeadingTitles([a, b]) == [TitleOf(a), TitleOf(b)] by {
      HeadingTitlesSnoc([a], b);
      assert [a] + [b] == [a, b];
    }
    HeadingTitlesSnoc([a, b], c);
    assert [a, b] + [c] == [a, b, c];
  }

  lemma HeadingTitlesSnoc(hs: seq<Node>, h: Node)
    ensures HeadingTitles(hs + [h]) == HeadingTitles(hs) + (if TitleOf(h) != "" then [TitleOf(h)] else [])
  {
    assert (hs + [h])[..|hs|] == hs;
  }

  /** The final loop drops the five-character title and the repeat. */
  lemma ShortAndRepeatedFiltered()
    ensures CleanTitles(["Short", ProperTitle, ProperTitle]) == [ProperTitle]
  {
    var ts := ["Short", ProperTitle, ProperTitle];
    assert ts[..2] == ["Short", ProperTitle] && ts[..2][..1] == ["Short"];
    assert CleanTitles(["Short"]) == [];
    assert CleanTitles(["Short", ProperTitle]) == [ProperTitle];
  }
}
