/**
 * Which section the viewer shows for the current location (`selectedSection`,
 * src/App.tsx:24-45): the last non-empty path segment is matched against the
 * urls of chapters, articles and sections in document order; a chapter shows
 * the first section of its first article, an article its first section.
 */
module Selection {
  import opened Wrappers
  import opened UdoTree
  import opened Paths

  /** A search either finds no url equal to the key, or stops with an answer (which may be null). */
  datatype Hit = Miss | Stop(answer: Option<Section>)

  /** `article.sections[0] ?? null`. */
  function FirstSection(a: Article): (r: Option<Section>)
    ensures r.Some? <==> |a.sections| > 0
    ensures r.Some? ==> r.value == a.sections[0]
  {
    if |a.sections| > 0 then Some(a.sections[0]) else None
  }

  /**
   * `chapter.articles[0]?.sections[0] ?? null`: only the first article is
   * consulted, so a chapter whose first article is empty shows nothing even
   * when a later article has sections.
   */
  function ChapterLanding(c: Chapter): (r: Option<Section>)
    ensures r.Some? <==> |c.articles| > 0 && |c.articles[0].sections| > 0
    ensures r.Some? ==> r.value == c.articles[0].sections[0]
  {
    if |c.articles| > 0 then FirstSection(c.articles[0]) else None
  }

  function SearchSections(sections: seq<Section>, key: string): Hit
  {
    if sections == [] then Miss
    else if sections[0].url == key then Stop(Some(sections[0]))
    else SearchSections(sections[1..], key)
  }

  function SearchArticles(articles: seq<Article>, key: string): Hit
  {
    if articles == [] then Miss
    else if articles[0].url == key then Stop(FirstSection(articles[0]))
    else
      match SearchSections(articles[0].sections, key)
      case Stop(s) => Stop(s)
      case Miss => SearchArticles(articles[1..], key)
  }

  function SearchChapters(chapters: seq<Chapter>, key: string): Hit
  {
    if chapters == [] then Miss
    else if chapters[0].url == key then Stop(ChapterLanding(chapters[0]))
    else
      match SearchArticles(chapters[0].articles, key)
      case Stop(s) => Stop(s)
      case Miss => SearchChapters(chapters[1..], key)
  }

  /** `selectedSection`: null without data or without a key; otherwise the search's answer, null on a miss. */
  function SelectedSection(data: Option<UdoData>, pathname: string): (r: Option<Section>)
    ensures data.None? || LastSegment(pathname).None? ==> r.None?
  {
    match LastSegment(pathname)
    case None => None
    case Some(key) =>
      match data
      case None => None
      case Some(d) =>
        match SearchChapters(d.chapters, key)
        case Miss => None
        case Stop(answer) => answer
  }

  // ---------------------------------------------------------------------------
  // Reference: the tree flattened in document order
  // ---------------------------------------------------------------------------

  /** A node of the tree as the search sees it: its url and what matching it shows. */
  datatype Entry = Entry(url: string, answer: Option<Section>)

  function SectionEntries(sections: seq<Section>): seq<Entry>
  {
    if sections == [] then []
    else [Entry(sections[0].url, Some(sections[0]))] + SectionEntries(sections[1..])
  }

  function ArticleEntries(articles: seq<Article>): seq<Entry>
  {
    if articles == [] then []
    else
      [Entry(articles[0].url, FirstSection(articles[0]))]
      + SectionEntries(articles[0].sections)
      + ArticleEntries(articles[1..])
  }

  /** Every chapter, then its articles, each article followed by its sections: pre-order. */
  function Outline(chapters: seq<Chapter>): seq<Entry>
  {
    if chapters == [] then []
    else
      [Entry(chapters[0].url, ChapterLanding(chapters[0]))]
      + ArticleEntries(chapters[0].articles)
      + Outline(chapters[1..])
  }

  /** Entry `i` is the first one whose url equals the key. */
  predicate FirstMatch(es: seq<Entry>, key: string, i: int)
  {
    0 <= i < |es| && es[i].url == key && forall j :: 0 <= j < i ==> es[j].url != key
  }

  /** Linear search over a flat list of entries. */
  function Find(es: seq<Entry>, key: string): Hit
  {
    if es == [] then Miss
    else if es[0].url == key then Stop(es[0].answer)
    else Find(es[1..], key)
  }

  lemma {:induction false} FindConcat(a: seq<Entry>, b: seq<Entry>, key: string)
    ensures Find(a + b, key) == if Find(a, key).Stop? then Find(a, key) else Find(b, key)
  {
    if a == [] {
      assert a + b == b;
    } else {
      assert (a + b)[0] == a[0] && (a + b)[1..] == a[1..] + b;
      FindConcat(a[1..], b, key);
    }
  }

  /** Linear search finds the first entry with the key, and misses exactly when there is none. */
  lemma {:induction false} FindFirst(es: seq<Entry>, key: string)
    ensures Find(es, key) == Miss <==> forall i :: 0 <= i < |es| ==> es[i].url != key
    ensures forall i :: FirstMatch(es, key, i) ==> Find(es, key) == Stop(es[i].answer)
  {
    if es != [] {
      FindFirst(es[1..], key);
      forall i | FirstMatch(es, key, i) ensures Find(es, key) == Stop(es[i].answer) {
        if i > 0 {
          assert FirstMatch(es[1..], key, i - 1);
        }
      }
      if es[0].url != key {
        assert forall i :: 1 <= i < |es| ==> es[i] == es[1..][i - 1];
      }
    }
  }

  lemma {:induction false} SectionsFind(sections: seq<Section>, key: string)
    ensures SearchSections(sections, key) == Find(SectionEntries(sections), key)
  {
    if sections != [] {
      SectionsFind(sections[1..], key);
    }
  }

  lemma {:induction false} ArticlesFind(articles: seq<Article>, key: string)
    ensures SearchArticles(articles, key) == Find(ArticleEntries(articles), key)
  {
    if articles != [] {
      var a := articles[0];
      var head := [Entry(a.url, FirstSection(a))];
      var below := SectionEntries(a.sections);
      var rest := ArticleEntries(articles[1..]);
      assert ArticleEntries(articles) == head + (below + rest);
      assert Find(head + (below + rest), key) ==
             if a.url == key then Stop(FirstSection(a)) else Find(below + rest, key) by {
        FindConcat(head, below + rest, key);
      }
      assert Find(below + rest, key) == if Find(below, key).Stop? then Find(below, key) else Find(rest, key) by {
        FindConcat(below, rest, key);
      }
      assert Find(below, key) == SearchSections(a.sections, key) by {
        SectionsFind(a.sections, key);
      }
      assert Find(rest, key) == SearchArticles(articles[1..], key) by {
        ArticlesFind(articles[1..], key);
      }
    }
  }

  lemma {:induction false} ChaptersFind(chapters: seq<Chapter>, key: string)
    ensures SearchChapters(chapters, key) == Find(Outline(chapters), key)
  {
    if chapters != [] {
      var c := chapters[0];
      var head := [Entry(c.url, ChapterLanding(c))];
      var below := ArticleEntries(c.articles);
      var rest := Outline(chapters[1..]);
      assert Outline(chapters) == head + (below + rest);
      assert Find(head + (below + rest), key) ==
             if c.url == key then Stop(ChapterLanding(c)) else Find(below + rest, key) by {
        FindConcat(head, below + rest, key);
      }
      assert Find(below + rest, key) == if Find(below, key).Stop? then Find(below, key) else Find(rest, key) by {
        FindConcat(below, rest, key);
      }
      assert Find(below, key) == SearchArticles(c.articles, key) by {
        ArticlesFind(c.articles, key);
      }
      assert Find(rest, key) == SearchChapters(chapters[1..], key) by {
        ChaptersFind(chapters[1..], key);
      }
    }
  }

  /**
   * The first url in document order that equals the key decides, where the
   * order tests a chapter before its articles, an article before its
   * sections, and a chapter's whole subtree before the next chapter; with no
   * equal url anywhere the result is null.
   */
  lemma SelectionIsFirstMatch(d: UdoData, pathname: string, key: string)
    requires LastSegment(pathname) == Some(key)
    ensures (forall i :: 0 <= i < |Outline(d.chapters)| ==> Outline(d.chapters)[i].url != key) ==>
              SelectedSection(Some(d), pathname) == None
    ensures forall i :: FirstMatch(Outline(d.chapters), key, i) ==>
              SelectedSection(Some(d), pathname) == Outline(d.chapters)[i].answer
  {
    ChaptersFind(d.chapters, key);
    FindFirst(Outline(d.chapters), key);
  }

  // ---------------------------------------------------------------------------
  // Properties stated on the tree itself
  // ---------------------------------------------------------------------------

  /** Some chapter, article or section of `chapters` has the url `key`. */
  ghost predicate Mentions(chapters: seq<Chapter>, key: string)
  {
    exists c :: c in chapters && (c.url == key || ArticleMentions(c.articles, key))
  }

  ghost predicate ArticleMentions(articles: seq<Article>, key: string)
  {
    exists a :: a in articles && (a.url == key || exists s :: s in a.sections && s.url == key)
  }

  lemma {:induction false} SectionsMiss(sections: seq<Section>, key: string)
    ensures SearchSections(sections, key) == Miss <==> forall s :: s in sections ==> s.url != key
    ensures forall s :: SearchSections(sections, key) == Stop(Some(s)) ==> s in sections
    ensures SearchSections(sections, key) != Stop(None)
  {
    if sections != [] {
      SectionsMiss(sections[1..], key);
      assert forall s :: s in sections <==> s == sections[0] || s in sections[1..];
    }
  }

  lemma {:induction false} ArticlesMiss(articles: seq<Article>, key: string)
    ensures SearchArticles(articles, key) == Miss <==> !ArticleMentions(articles, key)
    ensures forall s :: SearchArticles(articles, key) == Stop(Some(s)) ==>
              exists a :: a in articles && s in a.sections
  {
    if articles != [] {
      var a := articles[0];
      ArticlesMiss(articles[1..], key);
      SectionsMiss(a.sections, key);
      assert forall x :: x in articles <==> x == a || x in articles[1..];
      if ArticleMentions(articles, key) && a.url != key && SearchSections(a.sections, key) == Miss {
        assert ArticleMentions(articles[1..], key);
      }
    }
  }

  lemma {:induction false} ChaptersMiss(chapters: seq<Chapter>, key: string)
    ensures SearchChapters(chapters, key) == Miss <==> !Mentions(chapters, key)
    ensures forall s :: SearchChapters(chapters, key) == Stop(Some(s)) ==>
              exists c, a :: c in chapters && a in c.articles && s in a.sections
  {
    if chapters != [] {
      var c := chapters[0];
      ChaptersMiss(chapters[1..], key);
      ArticlesMiss(c.articles, key);
      assert forall x :: x in chapters <==> x == c || x in chapters[1..];
      if Mentions(chapters, key) && c.url != key && SearchArticles(c.articles, key) == Miss {
        assert Mentions(chapters[1..], key);
      }
    }
  }

  /**
   * With data and a key, the result is null when no url at any level equals
   * the key, and any section returned occurs in the tree.
   */
  lemma SelectionSound(d: UdoData, pathname: string, key: string)
    requires LastSegment(pathname) == Some(key)
    ensures !Mentions(d.chapters, key) ==> SelectedSection(Some(d), pathname) == None
    ensures SelectedSection(Some(d), pathname).Some? ==> InTree(d, SelectedSection(Some(d), pathname).value)
  {
    ChaptersMiss(d.chapters, key);
  }

  /** Trailing and doubled slashes in the location do not change the selection. */
  lemma SelectionIgnoresExtraSlashes(data: Option<UdoData>, a: string, b: string)
    ensures SelectedSection(data, a + "/") == SelectedSection(data, a)
    ensures SelectedSection(data, a + "//" + b) == SelectedSection(data, a + "/" + b)
  {
    TrailingSlash(a);
    DoubledSlash(a, b);
  }

  /**
   * A url holding a slash (a nested href loses only its first slash when
   * crawled) is never the key, so no location selects by that url.
   */
  lemma SlashedUrlNeverKey(pathname: string, url: string)
    requires '/' in url
    ensures LastSegment(pathname) != Some(url)
  {
    LastSegmentPlain(pathname);
  }
}
