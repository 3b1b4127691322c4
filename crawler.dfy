/**
 * The crawler of scripts/udoCrawler.ts: a sequential depth-first walk over
 * the base page's chapter links, each chapter page's article links and each
 * article page's section links, fetching every linked page, pausing after
 * every fetch, and writing the assembled tree only once the walk is complete.
 *
 * Fetching and parsing are an oracle: a `Site` maps each request target to
 * the page it yields once parsed; a target the site does not answer is a
 * request that throws. Parsing itself never fails here.
 */
module Crawler {
  import opened Wrappers
  import opened Strings
  import opened UdoTree

  /** What a request is aimed at: the base URL itself, or the base URL joined with a path. */
  datatype Target = Root | Child(path: string)

  /** An anchor matched by a selector: its `href` attribute, when it has one, and its text. */
  datatype Link = Link(href: Option<string>, text: string)

  /**
   * A fetched and parsed page, as seen through the three selectors the crawler uses:
   * the anchors under `.item-list li` (the base page's chapter list), the anchors of
   * the book-navigation menu (article and section lists), and the inner HTML of the
   * first `.text-content` region, if the page has one.
   */
  datatype Page = Page(itemList: seq<Link>, bookNav: seq<Link>, textContent: Option<string>)

  type Site = map<Target, Page>

  /** What the crawl does observably: a request, or one of the fixed politeness delays. */
  datatype Event = Get(target: Target) | Pause

  /** A crawl step either produces a value or stops at the target whose request threw. */
  datatype Outcome<+T> = Done(value: T) | Aborted(at: Target)

  /** The events a step performed together with its outcome. */
  datatype Run<+T> = Run(events: seq<Event>, outcome: Outcome<T>)

  // ---------------------------------------------------------------------------
  // Href normalisation and content extraction
  // ---------------------------------------------------------------------------

  /** `attr('href')?.replace('/', '') || ''`: the first slash is removed; a missing href gives "". */
  function NormaliseHref(href: Option<string>): string
  {
    match href
    case None => ""
    case Some(h) => ReplaceFirst(h, "/", "")
  }

  /** `sectionPage('.text-content').html() || ''`. */
  function ContentOf(page: Page): string
  {
    match page.textContent
    case None => ""
    case Some(html) => html
  }

  /** An href with no slash is kept as it is. */
  lemma HrefWithoutSlash(h: string)
    requires '/' !in h
    ensures NormaliseHref(Some(h)) == h
  {
    forall j | 0 <= j <= |h|
      ensures !OccursAt(h, "/", j)
    {
      if j < |h| {
        assert h[j..j + 1] == [h[j]];
      }
    }
    ReplaceAbsent(h, "/", "");
  }

  /**
   * Only the first slash is removed: when it is at index `i`, the url is the
   * href without that one character, and every later slash is kept.
   */
  lemma HrefFirstSlashOnly(h: string, i: nat)
    requires i < |h| && h[i] == '/'
    requires forall j :: 0 <= j < i ==> h[j] != '/'
    ensures NormaliseHref(Some(h)) == h[..i] + h[i + 1..]
  {
    assert h[i..i + 1] == "/";
    forall j | 0 <= j < i
      ensures !OccursAt(h, "/", j)
    {
      if j < |h| {
        assert h[j..j + 1] == [h[j]];
      }
    }
    ReplaceAtFirst(h, "/", "", i);
  }

  /** An href that starts with a slash loses exactly that slash. */
  lemma HrefLeadingSlash(h: string)
    requires |h| > 0 && h[0] == '/'
    ensures NormaliseHref(Some(h)) == h[1..]
  {
    HrefFirstSlashOnly(h, 0);
  }

  // ---------------------------------------------------------------------------
  // The crawl as a specification
  // ---------------------------------------------------------------------------

  /** Visits the links in document order, stopping at the first visit that throws. */
  function Traverse<T>(links: seq<Link>, visit: Link -> Run<T>): Run<seq<T>>
    decreases |links|
  {
    if links == [] then Run([], Done([]))
    else
      var init := Traverse(links[..|links| - 1], visit);
      var last := visit(links[|links| - 1]);
      match init.outcome
      case Aborted(_) => init
      case Done(done) =>
        match last.outcome
        case Aborted(t) => Run(init.events + last.events, Aborted(t))
        case Done(v) => Run(init.events + last.events, Done(done + [v]))
  }

  /** One section link: fetch its page and keep the content region (scripts/udoCrawler.ts:75-92). */
  function VisitSection(site: Site, link: Link): Run<Section>
  {
    var url := NormaliseHref(link.href);
    var target := Child(url);
    if target !in site then Run([Get(target)], Aborted(target))
    else Run([Get(target), Pause], Done(Section(link.text, ContentOf(site[target]), url)))
  }

  function SectionVisitor(site: Site): Link -> Run<Section>
  {
    link => VisitSection(site, link)
  }

  /** One article link: fetch its page, then visit its section links (scripts/udoCrawler.ts:60-95). */
  function VisitArticle(site: Site, link: Link): Run<Article>
  {
    var url := NormaliseHref(link.href);
    var target := Child(url);
    if target !in site then Run([Get(target)], Aborted(target))
    else
      var sections := Traverse(site[target].bookNav, SectionVisitor(site));
      Run([Get(target), Pause] + sections.events,
          match sections.outcome
          case Aborted(t) => Aborted(t)
          case Done(ss) => Done(Article(link.text, url, ss)))
  }

  function ArticleVisitor(site: Site): Link -> Run<Article>
  {
    link => VisitArticle(site, link)
  }

  /** One chapter link: fetch its page, then visit its article links (scripts/udoCrawler.ts:45-98). */
  function VisitChapter(site: Site, link: Link): Run<Chapter>
  {
    var url := NormaliseHref(link.href);
    var target := Child(url);
    if target !in site then Run([Get(target)], Aborted(target))
    else
      var articles := Traverse(site[target].bookNav, ArticleVisitor(site));
      Run([Get(target), Pause] + articles.events,
          match articles.outcome
          case Aborted(t) => Aborted(t)
          case Done(arts) => Done(Chapter(link.text, url, arts)))
  }

  function ChapterVisitor(site: Site): Link -> Run<Chapter>
  {
    link => VisitChapter(site, link)
  }

  /** The whole crawl: fetch the base page, then visit its chapter links (scripts/udoCrawler.ts:36-101). */
  function Crawl(site: Site): Run<UdoData>
  {
    if Root !in site then Run([Get(Root)], Aborted(Root))
    else
      var chapters := Traverse(site[Root].itemList, ChapterVisitor(site));
      Run([Get(Root), Pause] + chapters.events,
          match chapters.outcome
          case Aborted(t) => Aborted(t)
          case Done(cs) => Done(UdoData(cs)))
  }

  // ---------------------------------------------------------------------------
  // Properties of the traversal
  // ---------------------------------------------------------------------------

  /**
   * The traversal succeeds exactly when every visit succeeds, and then it holds
   * one result per link, in link order.
   */
  lemma {:induction false} TraverseDone<T>(links: seq<Link>, visit: Link -> Run<T>)
    ensures Traverse(links, visit).outcome.Done? <==>
              forall i :: 0 <= i < |links| ==> visit(links[i]).outcome.Done?
    ensures Traverse(links, visit).outcome.Done? ==>
              && |Traverse(links, visit).outcome.value| == |links|
              && forall i :: 0 <= i < |links| ==>
                   visit(links[i]).outcome == Done(Traverse(links, visit).outcome.value[i])
    decreases |links|
  {
    if links != [] {
      var n := |links| - 1;
      var init := links[..n];
      TraverseDone(init, visit);
      assert forall i :: 0 <= i < n ==> init[i] == links[i];
    }
  }

  /** Once a prefix of the links has thrown, the remaining links change nothing. */
  lemma {:induction false} TraverseAbortStable<T>(links: seq<Link>, visit: Link -> Run<T>, k: nat)
    requires k <= |links|
    requires Traverse(links[..k], visit).outcome.Aborted?
    ensures Traverse(links, visit) == Traverse(links[..k], visit)
    decreases |links|
  {
    if k < |links| {
      var n := |links| - 1;
      assert links[..n][..k] == links[..k];
      TraverseAbortStable(links[..n], visit, k);
    } else {
      assert links[..k] == links;
    }
  }

  /** One more step of the traversal, as the crawl loops take it. */
  lemma TraverseStep<T>(links: seq<Link>, visit: Link -> Run<T>, i: nat)
    requires i < |links| && Traverse(links[..i], visit).outcome.Done?
    ensures Traverse(links[..i + 1], visit).events ==
              Traverse(links[..i], visit).events + visit(links[i]).events
    ensures Traverse(links[..i + 1], visit).outcome ==
              match visit(links[i]).outcome
              case Aborted(t) => Aborted(t)
              case Done(v) => Done(Traverse(links[..i], visit).outcome.value + [v])
  {
    assert links[..i + 1][..i] == links[..i];
  }

  /** The first link whose visit throws decides the error, and nothing after it is visited. */
  lemma TraverseFirstAbort<T>(links: seq<Link>, visit: Link -> Run<T>, k: nat)
    requires k < |links| && visit(links[k]).outcome.Aborted?
    requires forall i :: 0 <= i < k ==> visit(links[i]).outcome.Done?
    ensures Traverse(links, visit) == Traverse(links[..k + 1], visit)
    ensures Traverse(links, visit).outcome == Aborted(visit(links[k]).outcome.at)
    ensures Traverse(links, visit).events ==
              Traverse(links[..k], visit).events + visit(links[k]).events
  {
    var pre := links[..k];
    assert forall i :: 0 <= i < k ==> pre[i] == links[i];
    TraverseDone(pre, visit);
    assert links[..k + 1][..k] == pre;
    TraverseAbortStable(links, visit, k + 1);
  }

  // ---------------------------------------------------------------------------
  // Pacing: every request is followed by one delay, and a throw ends the run
  // ---------------------------------------------------------------------------

  /** Requests and delays alternate, starting with a request. */
  predicate Paced(es: seq<Event>)
  {
    |es| % 2 == 0 && forall i :: 0 <= i < |es| ==> es[i].Pause? == (i % 2 == 1)
  }

  /** Every request in `es` was answered by the site. */
  predicate Answered(site: Site, es: seq<Event>)
  {
    forall i :: 0 <= i < |es| && es[i].Get? ==> es[i].target in site
  }

  /**
   * A finished run is paced and fully answered; a run that threw is paced and
   * answered up to its last request, which the site did not answer, with no
   * delay after it.
   */
  predicate Sound<T>(site: Site, r: Run<T>)
  {
    match r.outcome
    case Done(_) => Paced(r.events) && Answered(site, r.events)
    case Aborted(t) =>
      && t !in site
      && |r.events| > 0
      && r.events[|r.events| - 1] == Get(t)
      && Paced(r.events[..|r.events| - 1])
      && Answered(site, r.events[..|r.events| - 1])
  }

  lemma PacedConcat(a: seq<Event>, b: seq<Event>)
    requires Paced(a) && Paced(b)
    ensures Paced(a + b)
  {
    forall i | |a| <= i < |a| + |b|
      ensures (a + b)[i].Pause? == (i % 2 == 1)
    {
      assert (a + b)[i] == b[i - |a|];
      assert i % 2 == (i - |a|) % 2;
    }
  }

  /** Prefixing a paced, answered run with more paced, answered events keeps it sound. */
  lemma SoundAfter<T, U>(site: Site, pre: seq<Event>, r: Run<T>, out: Outcome<U>)
    requires Paced(pre) && Answered(site, pre) && Sound(site, r)
    requires out.Done? <==> r.outcome.Done?
    requires r.outcome.Aborted? ==> out == Aborted(r.outcome.at)
    ensures Sound(site, Run(pre + r.events, out))
  {
    var es := pre + r.events;
    if r.outcome.Done? {
      PacedConcat(pre, r.events);
    } else {
      var m := |r.events| - 1;
      assert es[..|es| - 1] == pre + r.events[..m];
      PacedConcat(pre, r.events[..m]);
    }
  }

  lemma {:induction false} TraverseSound<T>(site: Site, links: seq<Link>, visit: Link -> Run<T>)
    requires forall l :: Sound(site, visit(l))
    ensures Sound(site, Traverse(links, visit))
    decreases |links|
  {
    if links != [] {
      var init := Traverse(links[..|links| - 1], visit);
      TraverseSound(site, links[..|links| - 1], visit);
      if init.outcome.Done? {
        var last := visit(links[|links| - 1]);
        SoundAfter(site, init.events, last, Traverse(links, visit).outcome);
      }
    }
  }

  lemma SectionSound(site: Site, link: Link)
    ensures Sound(site, VisitSection(site, link))
  {
  }

  lemma ArticleSound(site: Site, link: Link)
    ensures Sound(site, VisitArticle(site, link))
  {
    var target := Child(NormaliseHref(link.href));
    if target in site {
      forall l ensures Sound(site, SectionVisitor(site)(l)) {
        SectionSound(site, l);
      }
      var sections := Traverse(site[target].bookNav, SectionVisitor(site));
      TraverseSound(site, site[target].bookNav, SectionVisitor(site));
      SoundAfter(site, [Get(target), Pause], sections, VisitArticle(site, link).outcome);
    }
  }

  lemma ChapterSound(site: Site, link: Link)
    ensures Sound(site, VisitChapter(site, link))
  {
    var target := Child(NormaliseHref(link.href));
    if target in site {
      forall l ensures Sound(site, ArticleVisitor(site)(l)) {
        ArticleSound(site, l);
      }
      var articles := Traverse(site[target].bookNav, ArticleVisitor(site));
      TraverseSound(site, site[target].bookNav, ArticleVisitor(site));
      SoundAfter(site, [Get(target), Pause], articles, VisitChapter(site, link).outcome);
    }
  }

  /**
   * Every request is followed by exactly one delay; the crawl succeeds exactly
   * when the site answered every request it made; after a throw no further
   * request is made and no delay follows the failed one.
   */
  lemma CrawlSound(site: Site)
    ensures Sound(site, Crawl(site))
    ensures Crawl(site).outcome.Done? <==> Answered(site, Crawl(site).events)
  {
    if Root in site {
      forall l ensures Sound(site, ChapterVisitor(site)(l)) {
        ChapterSound(site, l);
      }
      var chapters := Traverse(site[Root].itemList, ChapterVisitor(site));
      TraverseSound(site, site[Root].itemList, ChapterVisitor(site));
      SoundAfter(site, [Get(Root), Pause], chapters, Crawl(site).outcome);
    }
    var r := Crawl(site);
    if r.outcome.Aborted? {
      assert r.events[|r.events| - 1].Get?;
    }
  }

  // ---------------------------------------------------------------------------
  // The request trace of a successful crawl is the tree in pre-order
  // ---------------------------------------------------------------------------

  /** A request for `t` followed by its delay. */
  function Fetched(t: Target): seq<Event>
  {
    [Get(t), Pause]
  }

  /** The traces of `xs`, one after the other. */
  function Concat<T>(xs: seq<T>, trace: T -> seq<Event>): seq<Event>
    decreases |xs|
  {
    if xs == [] then [] else Concat(xs[..|xs| - 1], trace) + trace(xs[|xs| - 1])
  }

  function SectionTrace(s: Section): seq<Event>
  {
    Fetched(Child(s.url))
  }

  function ArticleTrace(a: Article): seq<Event>
  {
    Fetched(Child(a.url)) + Concat(a.sections, SectionTrace)
  }

  function ChapterTrace(c: Chapter): seq<Event>
  {
    Fetched(Child(c.url)) + Concat(c.articles, ArticleTrace)
  }

  /** The base URL, then each chapter's url followed by those of its articles, each followed by its sections'. */
  function TreeTrace(d: UdoData): seq<Event>
  {
    Fetched(Root) + Concat(d.chapters, ChapterTrace)
  }

  lemma {:induction false} TraverseTrace<T>(links: seq<Link>, visit: Link -> Run<T>, trace: T -> seq<Event>)
    requires forall l :: visit(l).outcome.Done? ==> visit(l).events == trace(visit(l).outcome.value)
    ensures Traverse(links, visit).outcome.Done? ==>
              Traverse(links, visit).events == Concat(Traverse(links, visit).outcome.value, trace)
    decreases |links|
  {
    if links != [] {
      var init := Traverse(links[..|links| - 1], visit);
      TraverseTrace(links[..|links| - 1], visit, trace);
      var r := Traverse(links, visit);
      if r.outcome.Done? {
        var done := init.outcome.value;
        assert r.outcome.value[..|done|] == done;
      }
    }
  }

  lemma ArticleTraced(site: Site, link: Link)
    ensures VisitArticle(site, link).outcome.Done? ==>
              VisitArticle(site, link).events == ArticleTrace(VisitArticle(site, link).outcome.value)
  {
    var target := Child(NormaliseHref(link.href));
    if target in site {
      TraverseTrace(site[target].bookNav, SectionVisitor(site), SectionTrace);
    }
  }

  lemma ChapterTraced(site: Site, link: Link)
    ensures VisitChapter(site, link).outcome.Done? ==>
              VisitChapter(site, link).events == ChapterTrace(VisitChapter(site, link).outcome.value)
  {
    var target := Child(NormaliseHref(link.href));
    if target in site {
      forall l ensures ArticleVisitor(site)(l).outcome.Done? ==>
                 ArticleVisitor(site)(l).events == ArticleTrace(ArticleVisitor(site)(l).outcome.value) {
        ArticleTraced(site, l);
      }
      TraverseTrace(site[target].bookNav, ArticleVisitor(site), ArticleTrace);
    }
  }

  /** A successful crawl requested the nodes of the tree it built, in pre-order, each followed by one delay. */
  lemma CrawlTraced(site: Site)
    ensures Crawl(site).outcome.Done? ==> Crawl(site).events == TreeTrace(Crawl(site).outcome.value)
  {
    if Root in site {
      forall l ensures ChapterVisitor(site)(l).outcome.Done? ==>
                 ChapterVisitor(site)(l).events == ChapterTrace(ChapterVisitor(site)(l).outcome.value) {
        ChapterTraced(site, l);
      }
      TraverseTrace(site[Root].itemList, ChapterVisitor(site), ChapterTrace);
    }
  }

  /** Number of sections under a list of articles. */
  function SectionsIn(articles: seq<Article>): nat
    decreases |articles|
  {
    if articles == [] then 0
    else SectionsIn(articles[..|articles| - 1]) + |articles[|articles| - 1].sections|
  }

  function ArticleCount(chapters: seq<Chapter>): nat
    decreases |chapters|
  {
    if chapters == [] then 0
    else ArticleCount(chapters[..|chapters| - 1]) + |chapters[|chapters| - 1].articles|
  }

  function SectionCount(chapters: seq<Chapter>): nat
    decreases |chapters|
  {
    if chapters == [] then 0
    else SectionCount(chapters[..|chapters| - 1]) + SectionsIn(chapters[|chapters| - 1].articles)
  }

  lemma {:induction false} SectionTraceLength(sections: seq<Section>)
    ensures |Concat(sections, SectionTrace)| == 2 * |sections|
    decreases |sections|
  {
    if sections != [] {
      SectionTraceLength(sections[..|sections| - 1]);
    }
  }

  lemma {:induction false} ArticleTraceLength(articles: seq<Article>)
    ensures |Concat(articles, ArticleTrace)| == 2 * (|articles| + SectionsIn(articles))
    decreases |articles|
  {
    if articles != [] {
      ArticleTraceLength(articles[..|articles| - 1]);
      SectionTraceLength(articles[|articles| - 1].sections);
    }
  }

  lemma {:induction false} ChapterTraceLength(chapters: seq<Chapter>)
    ensures |Concat(chapters, ChapterTrace)| == 2 * (|chapters| + ArticleCount(chapters) + SectionCount(chapters))
    decreases |chapters|
  {
    if chapters != [] {
      ChapterTraceLength(chapters[..|chapters| - 1]);
      ArticleTraceLength(chapters[|chapters| - 1].articles);
    }
  }

  /** A successful crawl makes 1 + #chapters + #articles + #sections requests, each followed by one delay. */
  lemma CrawlRequestCount(site: Site)
    ensures Crawl(site).outcome.Done? ==>
              var d := Crawl(site).outcome.value;
              |Crawl(site).events| ==
                2 * (1 + |d.chapters| + ArticleCount(d.chapters) + SectionCount(d.chapters))
  {
    CrawlTraced(site);
    if Crawl(site).outcome.Done? {
      ChapterTraceLength(Crawl(site).outcome.value.chapters);
    }
  }

  // ---------------------------------------------------------------------------
  // The tree a successful crawl builds, described link by link
  // ---------------------------------------------------------------------------

  /** `s` is the section built from `link`: its text, its normalised href, and the content of its page. */
  predicate SectionFrom(site: Site, link: Link, s: Section)
  {
    && s.title == link.text
    && s.url == NormaliseHref(link.href)
    && Child(s.url) in site
    && s.content == ContentOf(site[Child(s.url)])
  }

  /** `a` is the article built from `link`: one section per section link on its page, in order. */
  predicate ArticleFrom(site: Site, link: Link, a: Article)
  {
    && a.title == link.text
    && a.url == NormaliseHref(link.href)
    && Child(a.url) in site
    && var links := site[Child(a.url)].bookNav;
       && |a.sections| == |links|
       && forall k :: 0 <= k < |links| ==> SectionFrom(site, links[k], a.sections[k])
  }

  /** `c` is the chapter built from `link`: one article per article link on its page, in order. */
  predicate ChapterFrom(site: Site, link: Link, c: Chapter)
  {
    && c.title == link.text
    && c.url == NormaliseHref(link.href)
    && Child(c.url) in site
    && var links := site[Child(c.url)].bookNav;
       && |c.articles| == |links|
       && forall k :: 0 <= k < |links| ==> ArticleFrom(site, links[k], c.articles[k])
  }

  /** `d` holds one chapter per chapter link on the base page, in order. */
  predicate TreeFrom(site: Site, d: UdoData)
  {
    && Root in site
    && var links := site[Root].itemList;
       && |d.chapters| == |links|
       && forall k :: 0 <= k < |links| ==> ChapterFrom(site, links[k], d.chapters[k])
  }

  lemma SectionBuilt(site: Site, link: Link, s: Section)
    ensures VisitSection(site, link).outcome == Done(s) <==> SectionFrom(site, link, s)
  {
  }

  lemma ArticleBuilt(site: Site, link: Link, a: Article)
    ensures VisitArticle(site, link).outcome == Done(a) <==> ArticleFrom(site, link, a)
  {
    var target := Child(NormaliseHref(link.href));
    if target in site {
      var links := site[target].bookNav;
      var sections := Traverse(links, SectionVisitor(site));
      TraverseDone(links, SectionVisitor(site));
      if VisitArticle(site, link).outcome == Done(a) {
        forall k | 0 <= k < |links| ensures SectionFrom(site, links[k], a.sections[k]) {
          SectionBuilt(site, links[k], a.sections[k]);
        }
      }
      if ArticleFrom(site, link, a) {
        forall k | 0 <= k < |links| ensures SectionVisitor(site)(links[k]).outcome == Done(a.sections[k]) {
          SectionBuilt(site, links[k], a.sections[k]);
        }
        assert sections.outcome.value == a.sections;
      }
    }
  }

  lemma ChapterBuilt(site: Site, link: Link, c: Chapter)
    ensures VisitChapter(site, link).outcome == Done(c) <==> ChapterFrom(site, link, c)
  {
    var target := Child(NormaliseHref(link.href));
    if target in site {
      var links := site[target].bookNav;
      var articles := Traverse(links, ArticleVisitor(site));
      TraverseDone(links, ArticleVisitor(site));
      if VisitChapter(site, link).outcome == Done(c) {
        forall k | 0 <= k < |links| ensures ArticleFrom(site, links[k], c.articles[k]) {
          ArticleBuilt(site, links[k], c.articles[k]);
        }
      }
      if ChapterFrom(site, link, c) {
        forall k | 0 <= k < |links| ensures ArticleVisitor(site)(links[k]).outcome == Done(c.articles[k]) {
          ArticleBuilt(site, links[k], c.articles[k]);
        }
        assert articles.outcome.value == c.articles;
      }
    }
  }

  /**
   * The crawl succeeds with `d` exactly when `d` mirrors the site: as many
   * chapters as chapter links, articles as article links, sections as section
   * links, all in document order, with titles, normalised urls and contents
   * taken from the links and pages.
   */
  lemma CrawlBuilds(site: Site, d: UdoData)
    ensures Crawl(site).outcome == Done(d) <==> TreeFrom(site, d)
  {
    if Root in site {
      var links := site[Root].itemList;
      var chapters := Traverse(links, ChapterVisitor(site));
      TraverseDone(links, ChapterVisitor(site));
      if Crawl(site).outcome == Done(d) {
        forall k | 0 <= k < |links| ensures ChapterFrom(site, links[k], d.chapters[k]) {
          ChapterBuilt(site, links[k], d.chapters[k]);
        }
      }
      if TreeFrom(site, d) {
        forall k | 0 <= k < |links| ensures ChapterVisitor(site)(links[k]).outcome == Done(d.chapters[k]) {
          ChapterBuilt(site, links[k], d.chapters[k]);
        }
        assert chapters.outcome.value == d.chapters;
      }
    }
  }

  // ---------------------------------------------------------------------------
  // The crawl as the program runs it
  // ---------------------------------------------------------------------------

  /** Fetches one section page and keeps its content region (scripts/udoCrawler.ts:76-90). */
  method CrawlSection(site: Site, link: Link) returns (events: seq<Event>, outcome: Outcome<Section>)
    ensures Run(events, outcome) == VisitSection(site, link)
  {
    var url := NormaliseHref(link.href);
    var section := Section(link.text, "", url);
    var target := Child(url);
    events := [Get(target)];
    if target !in site {
      return events, Aborted(target);
    }
    events := events + [Pause];
    section := section.(content := ContentOf(site[target]));
    outcome := Done(section);
  }

  /** The loop over an article page's section links (scripts/udoCrawler.ts:75-93). */
  method CollectSections(site: Site, links: seq<Link>) returns (events: seq<Event>, outcome: Outcome<seq<Section>>)
    ensures Run(events, outcome) == Traverse(links, SectionVisitor(site))
  {
    var sections: seq<Section> := [];
    events := [];
    var i := 0;
    while i < |links|
      invariant 0 <= i <= |links|
      invariant Traverse(links[..i], SectionVisitor(site)) == Run(events, Done(sections))
    {
      var sectionEvents, sectionOutcome := CrawlSection(site, links[i]);
      TraverseStep(links, SectionVisitor(site), i);
      events := events + sectionEvents;
      if sectionOutcome.Aborted? {
        TraverseAbortStable(links, SectionVisitor(site), i + 1);
        return events, Aborted(sectionOutcome.at);
      }
      sections := sections + [sectionOutcome.value];
      i := i + 1;
    }
    assert links[..i] == links;
    outcome := Done(sections);
  }

  /** Fetches one article page and collects its sections (scripts/udoCrawler.ts:61-95). */
  method CrawlArticle(site: Site, link: Link) returns (events: seq<Event>, outcome: Outcome<Article>)
    ensures Run(events, outcome) == VisitArticle(site, link)
  {
    var url := NormaliseHref(link.href);
    var target := Child(url);
    events := [Get(target)];
    if target !in site {
      return events, Aborted(target);
    }
    events := events + [Pause];
    var sectionEvents, sections := CollectSections(site, site[target].bookNav);
    events := events + sectionEvents;
    match sections
    case Aborted(t) => outcome := Aborted(t);
    case Done(ss) => outcome := Done(Article(link.text, url, ss));
  }

  /** The loop over a chapter page's article links (scripts/udoCrawler.ts:60-96). */
  method CollectArticles(site: Site, links: seq<Link>) returns (events: seq<Event>, outcome: Outcome<seq<Article>>)
    ensures Run(events, outcome) == Traverse(links, ArticleVisitor(site))
  {
    var articles: seq<Article> := [];
    events := [];
    var i := 0;
    while i < |links|
      invariant 0 <= i <= |links|
      invariant Traverse(links[..i], ArticleVisitor(site)) == Run(events, Done(articles))
    {
      var articleEvents, articleOutcome := CrawlArticle(site, links[i]);
      TraverseStep(links, ArticleVisitor(site), i);
      events := events + articleEvents;
      if articleOutcome.Aborted? {
        TraverseAbortStable(links, ArticleVisitor(site), i + 1);
        return events, Aborted(articleOutcome.at);
      }
      articles := articles + [articleOutcome.value];
      i := i + 1;
    }
    assert links[..i] == links;
    outcome := Done(articles);
  }

  /** Fetches one chapter page and collects its articles (scripts/udoCrawler.ts:46-98). */
  method CrawlChapter(site: Site, link: Link) returns (events: seq<Event>, outcome: Outcome<Chapter>)
    ensures Run(events, outcome) == VisitChapter(site, link)
  {
    var url := NormaliseHref(link.href);
    var target := Child(url);
    events := [Get(target)];
    if target !in site {
      return events, Aborted(target);
    }
    events := events + [Pause];
    var articleEvents, articles := CollectArticles(site, site[target].bookNav);
    events := events + articleEvents;
    match articles
    case Aborted(t) => outcome := Aborted(t);
    case Done(arts) => outcome := Done(Chapter(link.text, url, arts));
  }

  /** The loop over the base page's chapter links (scripts/udoCrawler.ts:44-99). */
  method CollectChapters(site: Site, links: seq<Link>) returns (events: seq<Event>, outcome: Outcome<seq<Chapter>>)
    ensures Run(events, outcome) == Traverse(links, ChapterVisitor(site))
  {
    var chapters: seq<Chapter> := [];
    events := [];
    var i := 0;
    while i < |links|
      invariant 0 <= i <= |links|
      invariant Traverse(links[..i], ChapterVisitor(site)) == Run(events, Done(chapters))
    {
      var chapterEvents, chapterOutcome := CrawlChapter(site, links[i]);
      TraverseStep(links, ChapterVisitor(site), i);
      events := events + chapterEvents;
      if chapterOutcome.Aborted? {
        TraverseAbortStable(links, ChapterVisitor(site), i + 1);
        return events, Aborted(chapterOutcome.at);
      }
      chapters := chapters + [chapterOutcome.value];
      i := i + 1;
    }
    assert links[..i] == links;
    outcome := Done(chapters);
  }

  /** Fetches the base page and collects every chapter: the body of the `try` up to the write (scripts/udoCrawler.ts:36-101). */
  method BuildTree(site: Site) returns (events: seq<Event>, outcome: Outcome<UdoData>)
    ensures Run(events, outcome) == Crawl(site)
  {
    events := [Get(Root)];
    if Root !in site {
      return events, Aborted(Root);
    }
    events := events + [Pause];
    var chapterEvents, chapters := CollectChapters(site, site[Root].itemList);
    events := events + chapterEvents;
    match chapters
    case Aborted(t) => outcome := Aborted(t);
    case Done(cs) => outcome := Done(UdoData(cs));
  }

  /** The output file `public/udoData.json`: the document it holds, if any. */
  class OutputFile {
    var document: Option<UdoData>

    constructor (existing: Option<UdoData>)
      ensures document == existing
    {
      document := existing;
    }
  }

  /**
   * `crawlUDO`: build the whole tree, then overwrite the output file with it.
   * A throw anywhere lands in the `catch`, which only logs, so the file keeps
   * whatever it held before.
   */
  method CrawlUdo(site: Site, file: OutputFile) returns (events: seq<Event>, outcome: Outcome<UdoData>)
    modifies file
    ensures Run(events, outcome) == Crawl(site)
    ensures outcome.Done? ==> file.document == Some(outcome.value)
    ensures outcome.Aborted? ==> file.document == old(file.document)
  {
    events, outcome := BuildTree(site);
    if outcome.Done? {
      file.document := Some(outcome.value);
    }
  }
}
