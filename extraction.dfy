/**
  Extraction over the element handles a selector query returns: the
  session-aware crawler's `"text: href"` links (at most the first 100
  elements), the general crawler's newline-joined element texts, the general
  crawler's anchor-link list (at most 50), and the job-card selector fallback.
  A handle whose `inner_text` or `get_attribute` call raises is `Detached`.
*/
module Extraction {
  import opened Wrappers
  import opened Text

  /** A matched element: its inner text and `href` attribute, or a handle whose reads raise. */
  datatype Element = Element(innerText: string, href: Option<string>) | Detached

  /** What `query_selector_all(selector)` gives: the matched handles in document order, or an exception. */
  datatype SelectorQuery = QueryRaised | Matched(elements: seq<Element>)

  /** `if selector:` — an absent or empty selector means no selector. */
  predicate HasSelector(selector: Option<string>) {
    selector.Some? && selector.value != ""
  }

  /** The number of leading handles that can be read, that is, the index of the first `Detached` one. */
  function AttachedPrefix(es: seq<Element>): (n: nat)
    ensures n <= |es|
    ensures forall i :: 0 <= i < n ==> es[i].Element?
    ensures n < |es| ==> es[n].Detached?
  {
    if es == [] || es[0].Detached? then 0 else 1 + AttachedPrefix(es[1..])
  }

  // ---------------------------------------------------------------------------
  // Session-aware crawler: links from the selected elements
  // ---------------------------------------------------------------------------

  /** At most this many matched elements are read. */
  const MaxSelectedElements: int := 100

  datatype SelectorLink = SelectorLink(text: string, href: string)

  /** `if href:` — the element has a non-empty `href`. */
  predicate HasHref(e: Element) {
    e.Element? && e.href.Some? && e.href.value != ""
  }

  function LinkOf(e: Element): SelectorLink
    requires HasHref(e)
  {
    SelectorLink(Strip(PythonStrip, e.innerText), e.href.value)
  }

  /** The links the elements `es` contribute, in order: one per element with a non-empty `href`. */
  function HrefLinks(es: seq<Element>): (links: seq<SelectorLink>)
    ensures |links| <= |es|
    ensures forall l :: l in links ==> l.href != ""
  {
    if es == [] then []
    else (if HasHref(es[0]) then [LinkOf(es[0])] else []) + HrefLinks(es[1..])
  }

  /** Link extraction distributes over concatenation: links keep the order of their elements. */
  lemma {:induction false} HrefLinksAppend(a: seq<Element>, b: seq<Element>)
    ensures HrefLinks(a + b) == HrefLinks(a) + HrefLinks(b)
  {
    if a != [] {
      assert (a + b)[0] == a[0] && (a + b)[1..] == a[1..] + b;
      HrefLinksAppend(a[1..], b);
    } else {
      assert a + b == b;
    }
  }

  /** A link is extracted exactly when some element with a non-empty `href` yields it. */
  lemma {:induction false} HrefLinksMembership(es: seq<Element>, l: SelectorLink)
    ensures l in HrefLinks(es) <==> exists i :: 0 <= i < |es| && HasHref(es[i]) && l == LinkOf(es[i])
  {
    if es != [] {
      HrefLinksMembership(es[1..], l);
      if l in HrefLinks(es[1..]) {
        var i :| 0 <= i < |es[1..]| && HasHref(es[1..][i]) && l == LinkOf(es[1..][i]);
        assert es[i + 1] == es[1..][i];
      }
      forall i | 1 <= i < |es| && HasHref(es[i]) && l == LinkOf(es[i])
        ensures l in HrefLinks(es[1..])
      {
        assert es[1..][i - 1] == es[i];
      }
    }
  }

  /** One line of the selector content: `f"{text}: {href}"`. */
  function LinkLine(l: SelectorLink): string {
    l.text + ": " + l.href
  }

  function LinkLines(links: seq<SelectorLink>): (lines: seq<string>)
    ensures |lines| == |links|
  {
    seq(|links|, i requires 0 <= i < |links| => LinkLine(links[i]))
  }

  datatype Extracted = Extracted(content: string, links: seq<SelectorLink>)

  /**
    Content and links of a success response before truncation: with no
    selector, or a query that raises, the page text and no links; otherwise
    the links of the first 100 matches read in order, and the joined link
    lines unless a read raised partway, in which case the content falls back
    to the page text and the links read so far are kept.
  */
  function SelectedLinks(selector: Option<string>, query: SelectorQuery, pageText: string): (r: Extracted)
    ensures !HasSelector(selector) || query.QueryRaised? ==> r == Extracted(pageText, [])
    ensures HasSelector(selector) && query.Matched? &&
            (forall i :: 0 <= i < Min(MaxSelectedElements, |query.elements|) ==> query.elements[i].Element?) ==>
              r.content == Join("\n", LinkLines(r.links))
    ensures HasSelector(selector) && query.Matched? &&
            (exists i :: 0 <= i < Min(MaxSelectedElements, |query.elements|) && query.elements[i].Detached?) ==>
              r.content == pageText
  {
    if !HasSelector(selector) || query.QueryRaised? then Extracted(pageText, [])
    else
      var window := SliceTo(query.elements, MaxSelectedElements);
      var n := AttachedPrefix(window);
      var links := HrefLinks(window[..n]);
      if n == |window| then Extracted(Join("\n", LinkLines(links)), links)
      else Extracted(pageText, links)
  }

  /** The selector branch of `crawl_with_self_hosted`, which reads the matched elements one by one. */
  method ExtractSelectorLinks(selector: Option<string>, query: SelectorQuery, pageText: string)
      returns (content: string, links: seq<SelectorLink>)
    ensures Extracted(content, links) == SelectedLinks(selector, query, pageText)
  {
    content := pageText;
    links := [];
    if HasSelector(selector) && query.Matched? {
      var window := SliceTo(query.elements, MaxSelectedElements);
      var i := 0;
      while i < |window|
        invariant 0 <= i <= AttachedPrefix(window)
        invariant links == HrefLinks(window[..i])
      {
        var e := window[i];
        if e.Detached? {
          // the read raises: the content stays the page text, the links read so far are kept
          return;
        }
        assert window[..i + 1] == window[..i] + [e];
        HrefLinksAppend(window[..i], [e]);
        if HasHref(e) {
          links := links + [LinkOf(e)];
        }
        i := i + 1;
      }
      content := Join("\n", LinkLines(links));
    }
  }

  /**
    The links come from the first 100 matched elements only, each from one
    with a non-empty `href`, and there are at most 100 of them.
  */
  lemma SelectedLinksFromWindow(selector: Option<string>, query: SelectorQuery, pageText: string)
    ensures var r := SelectedLinks(selector, query, pageText);
            |r.links| <= MaxSelectedElements &&
            forall l :: l in r.links ==>
              query.Matched? && exists i :: 0 <= i < Min(MaxSelectedElements, |query.elements|)
                                            && HasHref(query.elements[i]) && l == LinkOf(query.elements[i])
  {
    if HasSelector(selector) && query.Matched? {
      var window := SliceTo(query.elements, MaxSelectedElements);
      var n := AttachedPrefix(window);
      forall l | l in HrefLinks(window[..n])
        ensures exists i :: 0 <= i < Min(MaxSelectedElements, |query.elements|)
                            && HasHref(query.elements[i]) && l == LinkOf(query.elements[i])
      {
        HrefLinksMembership(window[..n], l);
        var i :| 0 <= i < |window[..n]| && HasHref(window[..n][i]) && l == LinkOf(window[..n][i]);
        assert window[..n][i] == query.elements[i];
      }
    }
  }

  // ---------------------------------------------------------------------------
  // General crawler: text of the selected elements
  // ---------------------------------------------------------------------------

  /** The inner texts of readable handles, in order. */
  function Texts(es: seq<Element>): (texts: seq<string>)
    requires forall i :: 0 <= i < |es| ==> es[i].Element?
    ensures |texts| == |es|
  {
    seq(|es|, i requires 0 <= i < |es| => es[i].innerText)
  }

  /**
    Content of the general crawler: the page text, unless a selector is given
    and every matched element can be read, in which case their texts joined by
    newlines (the empty string when nothing matches).
  */
  function SelectedText(selector: Option<string>, query: SelectorQuery, pageText: string): (content: string)
    ensures !HasSelector(selector) || query.QueryRaised? ==> content == pageText
    ensures HasSelector(selector) && query.Matched? &&
            (exists i :: 0 <= i < |query.elements| && query.elements[i].Detached?) ==>
              content == pageText
    ensures HasSelector(selector) && query.Matched? &&
            (forall i :: 0 <= i < |query.elements| ==> query.elements[i].Element?) ==>
              content == Join("\n", Texts(query.elements))
  {
    if !HasSelector(selector) || query.QueryRaised? then pageText
    else if AttachedPrefix(query.elements) < |query.elements| then pageText
    else Join("\n", Texts(query.elements))
  }

  /** The selector branch of `crawl_page`, which collects the element texts one by one. */
  method SelectContent(selector: Option<string>, query: SelectorQuery, pageText: string)
      returns (content: string)
    ensures content == SelectedText(selector, query, pageText)
  {
    content := pageText;
    if HasSelector(selector) && query.Matched? {
      var elements := query.elements;
      var contents: seq<string> := [];
      var i := 0;
      while i < |elements|
        invariant 0 <= i <= AttachedPrefix(elements)
        invariant |contents| == i
        invariant forall j :: 0 <= j < i ==> contents[j] == elements[j].innerText
      {
        if elements[i].Detached? {
          content := pageText;
          return;
        }
        contents := contents + [elements[i].innerText];
        i := i + 1;
      }
      assert contents == Texts(elements);
      content := Join("\n", contents);
    }
  }

  /** With a selector that matches nothing the content is empty, not the page text. */
  lemma NoMatchesGiveEmptyContent(selector: string, pageText: string)
    requires selector != ""
    ensures SelectedText(Some(selector), Matched([]), pageText) == ""
  {
  }

  /** Two matched elements with texts "A" and "B" give the content "A\nB". */
  lemma TwoHeadlines(pageText: string)
    ensures SelectedText(Some(".headline"), Matched([Element("A", None), Element("B", None)]), pageText) == "A\nB"
  {
    var es := [Element("A", None), Element("B", None)];
    assert AttachedPrefix(es[1..]) == 1 && AttachedPrefix(es) == 2;
    var texts := ["A", "B"];
    assert Texts(es) == texts;
    assert texts[1..] == ["B"];
    assert Join("\n", texts) == "A" + "\n" + "B";
  }

  /** An unreadable match anywhere makes the content the page text. */
  lemma UnreadableMatchGivesPageText(selector: string, es: seq<Element>, pageText: string, k: nat)
    requires k < |es| && es[k].Detached?
    ensures SelectedText(Some(selector), Matched(es), pageText) == pageText
  {
  }

  // ---------------------------------------------------------------------------
  // General crawler: the anchor-link list
  // ---------------------------------------------------------------------------

  /** At most this many links are returned. */
  const MaxPageLinks: int := 50

  /** An `<a>` element as the in-page script reads it. */
  datatype Anchor = Anchor(innerText: string, href: string, title: string)

  datatype PageLink = PageLink(text: string, href: string, title: string)

  /** `{text: a.innerText.trim(), href: a.href, title: a.title || ''}` */
  function ToPageLink(a: Anchor): PageLink {
    PageLink(Strip(JsTrim, a.innerText), a.href, a.title)
  }

  /** `.filter(link => link.href && link.text)` */
  predicate Keeps(l: PageLink) {
    l.href != "" && l.text != ""
  }

  /** The map and filter steps, in order. */
  function KeptLinks(anchors: seq<Anchor>): (links: seq<PageLink>)
    ensures |links| <= |anchors|
    ensures forall l :: l in links ==> Keeps(l)
  {
    if anchors == [] then []
    else (if Keeps(ToPageLink(anchors[0])) then [ToPageLink(anchors[0])] else []) + KeptLinks(anchors[1..])
  }

  /** The whole chain, ending in `.slice(0, 50)`. */
  function PageLinks(anchors: seq<Anchor>): (links: seq<PageLink>)
    ensures |links| <= MaxPageLinks
    ensures |links| <= |KeptLinks(anchors)| && links == KeptLinks(anchors)[..|links|]
    ensures |KeptLinks(anchors)| <= MaxPageLinks ==> links == KeptLinks(anchors)
    ensures |KeptLinks(anchors)| > MaxPageLinks ==> |links| == MaxPageLinks
  {
    SliceTo(KeptLinks(anchors), MaxPageLinks)
  }

  /** Filtering distributes over concatenation: kept links stay in anchor order. */
  lemma {:induction false} KeptLinksAppend(a: seq<Anchor>, b: seq<Anchor>)
    ensures KeptLinks(a + b) == KeptLinks(a) + KeptLinks(b)
  {
    if a != [] {
      assert (a + b)[0] == a[0] && (a + b)[1..] == a[1..] + b;
      KeptLinksAppend(a[1..], b);
    } else {
      assert a + b == b;
    }
  }

  /** A link is kept exactly when some anchor maps to it and it has non-empty text and href. */
  lemma {:induction false} KeptLinksMembership(anchors: seq<Anchor>, l: PageLink)
    ensures l in KeptLinks(anchors) <==> Keeps(l) && exists i :: 0 <= i < |anchors| && l == ToPageLink(anchors[i])
  {
    if anchors != [] {
      KeptLinksMembership(anchors[1..], l);
      if l in KeptLinks(anchors[1..]) {
        var i :| 0 <= i < |anchors[1..]| && l == ToPageLink(anchors[1..][i]);
        assert anchors[i + 1] == anchors[1..][i];
      }
      forall i | 1 <= i < |anchors| && Keeps(l) && l == ToPageLink(anchors[i])
        ensures l in KeptLinks(anchors[1..])
      {
        assert anchors[1..][i - 1] == anchors[i];
      }
    }
  }

  /** A kept link has non-empty text without surrounding white space and comes from an anchor. */
  lemma KeptLinkEntry(anchors: seq<Anchor>, l: PageLink)
    requires l in KeptLinks(anchors)
    ensures Keeps(l) && !IsSpace(JsTrim, l.text[0]) && !IsSpace(JsTrim, l.text[|l.text| - 1])
    ensures exists i :: 0 <= i < |anchors| && l == ToPageLink(anchors[i])
  {
    KeptLinksMembership(anchors, l);
  }

  /**
    Every returned link has non-empty text without surrounding white space
    and a non-empty href, and is the trimmed form of some anchor.
  */
  lemma PageLinksEntries(anchors: seq<Anchor>)
    ensures forall l :: l in PageLinks(anchors) ==>
              Keeps(l) && !IsSpace(JsTrim, l.text[0]) && !IsSpace(JsTrim, l.text[|l.text| - 1])
              && exists i :: 0 <= i < |anchors| && l == ToPageLink(anchors[i])
  {
    var links := PageLinks(anchors);
    forall l | l in links
      ensures Keeps(l) && !IsSpace(JsTrim, l.text[0]) && !IsSpace(JsTrim, l.text[|l.text| - 1])
              && exists i :: 0 <= i < |anchors| && l == ToPageLink(anchors[i])
    {
      var k :| 0 <= k < |links| && links[k] == l;
      assert KeptLinks(anchors)[k] == l;
      KeptLinkEntry(anchors, l);
    }
  }

  // ---------------------------------------------------------------------------
  // Job-card selector fallback
  // ---------------------------------------------------------------------------

  /** The job-card selectors, in the order they are tried. */
  const JobCardSelectors: seq<string> := [
    ".base-card",
    ".jobs-search-results__list-item",
    "[data-occludable-job-id]",
    ".result-card.job-result-card"
  ]

  /**
    The selector loop of `linkedin_enhanced_scrape`: the matches of the first
    selector that matches anything, or nothing when none does.
  */
  method FindJobCards(selectors: seq<string>, query: string -> seq<Element>) returns (cards: seq<Element>)
    ensures cards == [] <==> forall i :: 0 <= i < |selectors| ==> query(selectors[i]) == []
    ensures cards != [] ==> exists i :: 0 <= i < |selectors| && cards == query(selectors[i])
                                        && forall j :: 0 <= j < i ==> query(selectors[j]) == []
  {
    cards := [];
    var i := 0;
    while i < |selectors|
      invariant 0 <= i <= |selectors|
      invariant cards == []
      invariant forall j :: 0 <= j < i ==> query(selectors[j]) == []
    {
      var found := query(selectors[i]);
      if found != [] {
        cards := found;
        break;
      }
      i := i + 1;
    }
  }

  /**
    The cards `linkedin_enhanced_scrape` goes on to read: the fallback's
    result cut to `job_cards[:max_jobs]`.
  */
  method JobCardsToProcess(query: string -> seq<Element>, maxJobs: int) returns (cards: seq<Element>)
    ensures maxJobs >= 0 ==> |cards| <= maxJobs
    ensures (forall i :: 0 <= i < |JobCardSelectors| ==> query(JobCardSelectors[i]) == []) ==> cards == []
    ensures (exists i :: 0 <= i < |JobCardSelectors| && query(JobCardSelectors[i]) != []) ==>
              exists i :: 0 <= i < |JobCardSelectors| && query(JobCardSelectors[i]) != []
                          && cards == SliceTo(query(JobCardSelectors[i]), maxJobs)
                          && forall j :: 0 <= j < i ==> query(JobCardSelectors[j]) == []
  {
    var found := FindJobCards(JobCardSelectors, query);
    cards := SliceTo(found, maxJobs);
  }
}
