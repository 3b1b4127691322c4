/**
 * Expansion state of the navigation menu (src/components/NavigationMenu.tsx):
 * the set of expanded chapter indices and the set of expanded article
 * titles, changed by the toggle buttons, by "Expand All" / "Collapse All",
 * and by the effect that opens the chapter and article around the section
 * named in the current location.
 */
module Navigation {
  import opened Wrappers
  import opened UdoTree
  import opened Paths

  /** A copy of `s` with `x` removed when present and added when absent. */
  function Toggle<T(!new)>(s: set<T>, x: T): (r: set<T>)
    ensures x in r <==> x !in s
    ensures forall y :: y != x ==> (y in r <==> y in s)
  {
    if x in s then s - {x} else s + {x}
  }

  /** Toggling twice restores the set. */
  lemma ToggleTwice<T(!new)>(s: set<T>, x: T)
    ensures Toggle(Toggle(s, x), x) == s
  {
    var r := Toggle(Toggle(s, x), x);
    forall y ensures y in r <==> y in s {
    }
  }

  /** The indices of a list of `n` chapters, as "Expand All" collects them. */
  function AllChapterIndices(n: nat): (r: set<int>)
    ensures forall i :: i in r <==> 0 <= i < n
  {
    if n == 0 then {} else AllChapterIndices(n - 1) + {n - 1}
  }

  function TitlesOf(articles: seq<Article>): (r: set<string>)
    ensures forall t :: t in r <==> exists a :: a in articles && a.title == t
  {
    if articles == [] then {}
    else {articles[0].title} + TitlesOf(articles[1..])
  }

  /** The title of every article of every chapter, as "Expand All" collects them. */
  function AllArticleTitles(chapters: seq<Chapter>): (r: set<string>)
    ensures forall t :: t in r <==> exists c, a :: c in chapters && a in c.articles && a.title == t
  {
    if chapters == [] then {}
    else TitlesOf(chapters[0].articles) + AllArticleTitles(chapters[1..])
  }

  // ---------------------------------------------------------------------------
  // What the location effect opens, folded in the order its loops visit
  // ---------------------------------------------------------------------------

  /** Some section of the list has the url `key`. */
  predicate ListsUrl(sections: seq<Section>, key: string)
    decreases |sections|
  {
    sections != [] &&
    (ListsUrl(sections[..|sections| - 1], key) || sections[|sections| - 1].url == key)
  }

  /** Some article of the list has a section with the url `key`. */
  predicate ArticlesListUrl(articles: seq<Article>, key: string)
    decreases |articles|
  {
    articles != [] &&
    (ArticlesListUrl(articles[..|articles| - 1], key) || ListsUrl(articles[|articles| - 1].sections, key))
  }

  /** Titles of the articles in the list that have a section with the url `key`. */
  function TitlesToOpen(articles: seq<Article>, key: string): set<string>
    decreases |articles|
  {
    if articles == [] then {}
    else
      var last := articles[|articles| - 1];
      TitlesToOpen(articles[..|articles| - 1], key) + (if ListsUrl(last.sections, key) then {last.title} else {})
  }

  /** Indices of the chapters that have a section with the url `key`. */
  function ChaptersToExpand(chapters: seq<Chapter>, key: string): set<int>
    decreases |chapters|
  {
    if chapters == [] then {}
    else
      var n := |chapters| - 1;
      ChaptersToExpand(chapters[..n], key) + (if ArticlesListUrl(chapters[n].articles, key) then {n} else {})
  }

  /** Titles of the articles, in any chapter, that have a section with the url `key`. */
  function TitlesToExpand(chapters: seq<Chapter>, key: string): set<string>
    decreases |chapters|
  {
    if chapters == [] then {}
    else TitlesToExpand(chapters[..|chapters| - 1], key) + TitlesToOpen(chapters[|chapters| - 1].articles, key)
  }

  lemma {:induction false} ListsUrlMeans(sections: seq<Section>, key: string)
    ensures ListsUrl(sections, key) <==> exists s :: s in sections && s.url == key
    decreases |sections|
  {
    if sections != [] {
      var init := sections[..|sections| - 1];
      ListsUrlMeans(init, key);
      assert forall s :: s in sections <==> s in init || s == sections[|sections| - 1] by {
        assert sections == init + [sections[|sections| - 1]];
      }
    }
  }

  /** The articles that make a chapter expand: those listing a section with the key. */
  lemma {:induction false} ArticlesListUrlMeans(articles: seq<Article>, key: string)
    ensures ArticlesListUrl(articles, key) <==>
              exists a, s :: a in articles && s in a.sections && s.url == key
    ensures forall t :: t in TitlesToOpen(articles, key) <==>
              exists a, s :: a in articles && s in a.sections && s.url == key && a.title == t
    decreases |articles|
  {
    if articles != [] {
      var init := articles[..|articles| - 1];
      var last := articles[|articles| - 1];
      ArticlesListUrlMeans(init, key);
      ListsUrlMeans(last.sections, key);
      assert forall a :: a in articles <==> a in init || a == last by {
        assert articles == init + [last];
      }
    }
  }

  /**
   * The effect expands exactly the chapters, and the titles of exactly the
   * articles, that hold a section whose url is the key; chapter and article
   * urls play no part.
   */
  lemma {:induction false} ExpandMeans(chapters: seq<Chapter>, key: string)
    ensures forall i :: i in ChaptersToExpand(chapters, key) <==>
              0 <= i < |chapters| && exists a, s :: a in chapters[i].articles && s in a.sections && s.url == key
    ensures forall t :: t in TitlesToExpand(chapters, key) <==>
              exists c, a, s :: c in chapters && a in c.articles && s in a.sections && s.url == key && a.title == t
    decreases |chapters|
  {
    if chapters != [] {
      var n := |chapters| - 1;
      var init := chapters[..n];
      ExpandMeans(init, key);
      ArticlesListUrlMeans(chapters[n].articles, key);
      assert forall c :: c in chapters <==> c in init || c == chapters[n] by {
        assert chapters == init + [chapters[n]];
      }
      assert forall i :: 0 <= i < n ==> init[i] == chapters[i];
    }
  }

  /** With no section url equal to the key, the effect opens nothing. */
  lemma NothingToExpand(chapters: seq<Chapter>, key: string)
    requires forall c, a, s :: c in chapters && a in c.articles && s in a.sections ==> s.url != key
    ensures ChaptersToExpand(chapters, key) == {}
    ensures TitlesToExpand(chapters, key) == {}
  {
    ExpandMeans(chapters, key);
  }

  /** "Expand All" opens at least what the location effect would open. */
  lemma ExpandAllCovers(chapters: seq<Chapter>, key: string)
    ensures ChaptersToExpand(chapters, key) <= AllChapterIndices(|chapters|)
    ensures TitlesToExpand(chapters, key) <= AllArticleTitles(chapters)
  {
    ExpandMeans(chapters, key);
  }

  // ---------------------------------------------------------------------------
  // The menu's state
  // ---------------------------------------------------------------------------

  class ExpansionState {
    /** `expandedChapters`: indices into the chapter list. */
    var chapters: set<int>
    /** `expandedArticles`: keyed by title, so articles with one title open and close together. */
    var articles: set<string>

    /** Both sets start empty. */
    constructor()
      ensures chapters == {} && articles == {}
    {
      chapters := {};
      articles := {};
    }

    /** Whether the chapter at `index` shows its articles. */
    predicate ChapterOpen(index: int)
      reads this
    {
      index in chapters
    }

    /** Whether an article shows its sections. */
    predicate ArticleOpen(a: Article)
      reads this
    {
      a.title in articles
    }

    method ToggleChapter(index: int)
      modifies this
      ensures chapters == Toggle(old(chapters), index)
      ensures articles == old(articles)
      ensures ChapterOpen(index) <==> !old(ChapterOpen(index))
    {
      chapters := Toggle(chapters, index);
    }

    method ToggleArticle(title: string)
      modifies this
      ensures articles == Toggle(old(articles), title)
      ensures chapters == old(chapters)
      ensures forall a: Article :: a.title == title ==> (ArticleOpen(a) <==> !old(ArticleOpen(a)))
    {
      articles := Toggle(articles, title);
    }

    /** Opens every chapter and every article; does nothing before the data has loaded. */
    method ExpandAll(data: Option<UdoData>)
      modifies this
      ensures data.None? ==> chapters == old(chapters) && articles == old(articles)
      ensures data.Some? ==> chapters == AllChapterIndices(|data.value.chapters|)
      ensures data.Some? ==> articles == AllArticleTitles(data.value.chapters)
    {
      if data.None? {
        return;
      }
      chapters := AllChapterIndices(|data.value.chapters|);
      articles := AllArticleTitles(data.value.chapters);
    }

    method CollapseAll()
      modifies this
      ensures chapters == {} && articles == {}
    {
      chapters := {};
      articles := {};
    }

    /** Adds `x` unless it is already there (the state is left as it was in that case). */
    method OpenChapter(x: int)
      modifies this
      ensures chapters == old(chapters) + {x}
      ensures articles == old(articles)
    {
      if x !in chapters {
        chapters := chapters + {x};
      }
    }

    method OpenArticle(title: string)
      modifies this
      ensures articles == old(articles) + {title}
      ensures chapters == old(chapters)
    {
      if title !in articles {
        articles := articles + {title};
      }
    }

    /** The innermost loop of the effect: over the sections of one article of chapter `index`. */
    method ExpandForSections(index: int, title: string, sections: seq<Section>, key: string)
      modifies this
      ensures chapters == old(chapters) + (if ListsUrl(sections, key) then {index} else {})
      ensures articles == old(articles) + (if ListsUrl(sections, key) then {title} else {})
    {
      var i := 0;
      while i < |sections|
        invariant 0 <= i <= |sections|
        invariant chapters == old(chapters) + (if ListsUrl(sections[..i], key) then {index} else {})
        invariant articles == old(articles) + (if ListsUrl(sections[..i], key) then {title} else {})
      {
        assert sections[..i + 1][..i] == sections[..i];
        if sections[i].url == key {
          OpenChapter(index);
          OpenArticle(title);
        }
        i := i + 1;
      }
      assert sections[..i] == sections;
    }

    /** The middle loop: over the articles of the chapter at `index`. */
    method ExpandForArticles(index: int, articles': seq<Article>, key: string)
      modifies this
      ensures chapters == old(chapters) + (if ArticlesListUrl(articles', key) then {index} else {})
      ensures articles == old(articles) + TitlesToOpen(articles', key)
    {
      var i := 0;
      while i < |articles'|
        invariant 0 <= i <= |articles'|
        invariant chapters == old(chapters) + (if ArticlesListUrl(articles'[..i], key) then {index} else {})
        invariant articles == old(articles) + TitlesToOpen(articles'[..i], key)
      {
        assert articles'[..i + 1][..i] == articles'[..i];
        ExpandForSections(index, articles'[i].title, articles'[i].sections, key);
        i := i + 1;
      }
      assert articles'[..i] == articles';
    }

    /** The outer loop: over the chapters, with their indices. */
    method ExpandForChapters(cs: seq<Chapter>, key: string)
      modifies this
      ensures chapters == old(chapters) + ChaptersToExpand(cs, key)
      ensures articles == old(articles) + TitlesToExpand(cs, key)
    {
      var i := 0;
      while i < |cs|
        invariant 0 <= i <= |cs|
        invariant chapters == old(chapters) + ChaptersToExpand(cs[..i], key)
        invariant articles == old(articles) + TitlesToExpand(cs[..i], key)
      {
        assert cs[..i + 1][..i] == cs[..i];
        ExpandForArticles(i, cs[i].articles, key);
        i := i + 1;
      }
      assert cs[..i] == cs;
    }

    /**
     * The location effect: with data and a non-empty last path segment, it
     * opens every chapter and every article title holding a section whose
     * url is that segment, and keeps whatever was open already.
     */
    method AutoExpand(data: Option<UdoData>, pathname: string)
      modifies this
      ensures data.None? || LastSegment(pathname).None? ==>
                chapters == old(chapters) && articles == old(articles)
      ensures data.Some? && LastSegment(pathname).Some? ==>
                chapters == old(chapters) + ChaptersToExpand(data.value.chapters, LastSegment(pathname).value)
      ensures data.Some? && LastSegment(pathname).Some? ==>
                articles == old(articles) + TitlesToExpand(data.value.chapters, LastSegment(pathname).value)
    {
      if data.None? {
        return;
      }
      var segment := LastSegment(pathname);
      if segment.None? {
        return;
      }
      ExpandForChapters(data.value.chapters, segment.value);
    }
  }
}
