# udo-viewer, modelled in Dafny

udo-viewer turns the City of Raleigh's Unified Development Ordinance into a
browsable document. A crawler script walks the ordinance's web site from the
base page, through chapter pages and article pages, to section pages. It
builds a three-level tree (chapters hold articles, articles hold sections)
and writes it to `public/udoData.json`. A React viewer reads that tree. It
picks the section named by the last segment of the location and keeps a
navigation menu of expanded chapters and articles. It shows the section's
HTML with image sources moved from the development host to the public host.

This project models four parts of the system:

- **Crawler tree assembly.** The crawl runs over an abstract site: a map from
  request targets to parsed pages. A target that is missing from the map is a
  request that throws; parsing never fails in the model. The model covers href normalisation, the shape
  and order of the tree, the request trace with its delays, and the rule that
  the file is written only on success.
- **Section resolution.** `selectedSection`: a pure search with the chapter
  and article "first child" fallbacks.
- **Navigation expansion state.** A class with two set fields, updated by the
  toggles, by "Expand All" / "Collapse All", and by the location effect.
- **Content post-processing.** The margin → width table with its fallback, and
  the in-place rewrite of every image source.

| file | module | what it holds |
|---|---|---|
| wrappers.dfy | Wrappers | `Option` |
| strings.dfy | Strings | JavaScript's `String.prototype.replace` with a string pattern (first occurrence only) |
| tree.dfy | UdoTree | `Section`, `Article`, `Chapter`, `UdoData`, as the crawler declares them (every level carries `url`) |
| paths.dfy | Paths | `pathname.split('/').filter(Boolean).at(-1)` and its properties |
| crawler.dfy | Crawler | the fetch oracle, the crawl as specification functions, the crawl as imperative methods, the output file |
| selection.dfy | Selection | `selectedSection` and a document-order reference for it |
| navigation.dfy | Navigation | the `ExpansionState` class of the menu |
| flipbook.dfy | FlipBook | `widthLookup`, the source rewrite, and the `Image` class |

Each imperative operation is a method whose `ensures` equates its result or
its new state with a specification function. Lemmas then prove the source's
promises about that function:

- `Crawler.BuildTree` equals `Crawler.Crawl`. `Crawler.CrawlBuilds`,
  `Crawler.CrawlTraced` and `Crawler.CrawlRequestCount` are about `Crawl`.
- `Navigation.ExpansionState.AutoExpand` equals `Navigation.ChaptersToExpand`
  and `Navigation.TitlesToExpand`, which `Navigation.ExpandMeans`
  characterises.

Two places where the code does less than one might expect. The model
follows the code in both:

- **Href normalisation.** Stripping a leading slash and trimming link labels
  would be the expected behaviour. The code calls `replace('/', '')`, which
  removes the first slash wherever it is. For example, `a/b` becomes `ab`, and `//x` keeps
  a leading slash as `/x`. The code also takes the anchor text untrimmed, as
  the title.
- **Image-source rewrite.** The rewrite is idempotent only for a source
  holding the local prefix at most once. `FlipBook.RewriteLocalPrefix` shows
  that `Local + Local` becomes `Public + Local`, which a second rewrite
  changes again.

## Model

| member | source | states |
|---|---|---|
| Strings.IndexFrom | src/components/FlipBookViewer.tsx:23 | the result is the first index at or after the start where the pattern occurs, and none means it occurs nowhere from there |
| Strings.ReplaceAbsent | src/components/FlipBookViewer.tsx:23 | a string without the pattern is returned unchanged by the first-occurrence replace |
| Strings.ReplaceAtFirst | src/components/FlipBookViewer.tsx:23 | when the first occurrence is at i, exactly that occurrence is replaced and the text around it is kept |
| Strings.ReplaceLeading | src/components/FlipBookViewer.tsx:23 | a string that starts with the pattern has only that prefix replaced |
| Paths.SlashIndex | src/App.tsx:25 | the index of the first slash, or the length when there is none |
| Paths.NonEmpty | src/App.tsx:25 | `filter(Boolean)` keeps no empty piece |
| Paths.NonEmptyFrom | src/App.tsx:25 | every kept piece is one of the split pieces |
| Paths.JoinSplit | src/App.tsx:25 | splitting on "/" loses nothing: joining the pieces with "/" restores the path |
| Paths.SplitPiecesPlain | src/App.tsx:25 | no split piece holds a slash |
| Paths.SplitAround | src/App.tsx:25 | the pieces of `a/b` are the pieces of `a` followed by the pieces of `b` |
| Paths.NonEmptyConcat | src/App.tsx:25 | filtering distributes over concatenation |
| Paths.TrailingSlash | src/App.tsx:25 | a trailing slash does not change the key |
| Paths.DoubledSlash | src/App.tsx:25 | a doubled slash does not change the key |
| Paths.NoSegment | src/App.tsx:25-26 | there is no key exactly when the path consists of slashes only (the empty path included) |
| Paths.LastSegmentPlain | src/App.tsx:25 | a key is non-empty and contains no slash |
| Paths.LinkPathKey | src/App.tsx:25 | a path ending in `/<url>` is keyed by that url when the url is non-empty and slash-free |
| Crawler.HrefWithoutSlash | scripts/udoCrawler.ts:46 | an href without a slash is kept as it is (the same expression normalises article and section hrefs at lines 61 and 76) |
| Crawler.HrefFirstSlashOnly | scripts/udoCrawler.ts:46 | only the first slash is removed, wherever it is, and every other character is kept |
| Crawler.HrefLeadingSlash | scripts/udoCrawler.ts:46 | an href starting with a slash loses exactly that slash |
| Crawler.TraverseDone | scripts/udoCrawler.ts:45-98 | a loop over links succeeds iff every visit succeeds, and then it yields one value per link, in link order |
| Crawler.TraverseAbortStable | scripts/udoCrawler.ts:35-107 | once a visit throws, later links are never visited |
| Crawler.TraverseStep | scripts/udoCrawler.ts:45-98 | one more loop iteration appends that link's events and its value |
| Crawler.TraverseFirstAbort | scripts/udoCrawler.ts:35-107 | the first link whose visit throws decides the outcome, and the trace stops after that visit's events |
| Crawler.TraverseSound | scripts/udoCrawler.ts:36-98 | a loop of visits that each pause after every answered request and stop at the failed one does the same |
| Crawler.SectionSound | scripts/udoCrawler.ts:86-87 | visiting a section pauses after its request when answered, and stops at it otherwise |
| Crawler.ArticleSound | scripts/udoCrawler.ts:69-75 | the same for an article and the sections below it |
| Crawler.ChapterSound | scripts/udoCrawler.ts:54-60 | the same for a chapter and everything below it |
| Crawler.CrawlSound | scripts/udoCrawler.ts:34-108 | every request is followed by exactly one delay; a failed crawl ends at a request the site does not answer; the crawl succeeds iff every request it made was answered |
| Crawler.TraverseTrace | scripts/udoCrawler.ts:45-98 | a successful loop's events are the concatenated traces of the values it built |
| Crawler.ArticleTraced | scripts/udoCrawler.ts:69-93 | a successful article visit requests the article, then its sections in order |
| Crawler.ChapterTraced | scripts/udoCrawler.ts:54-96 | a successful chapter visit requests the chapter, then each article and its sections, in pre-order |
| Crawler.CrawlTraced | scripts/udoCrawler.ts:36-98 | a successful crawl's request trace is the base URL, then the pre-order of the tree it built, a delay after each request |
| Crawler.SectionTraceLength | scripts/udoCrawler.ts:86-87 | each section costs one request and one delay |
| Crawler.ArticleTraceLength | scripts/udoCrawler.ts:69-93 | articles cost a request and a delay each, plus their sections' |
| Crawler.ChapterTraceLength | scripts/udoCrawler.ts:54-96 | chapters cost a request and a delay each, plus their articles' and sections' |
| Crawler.CrawlRequestCount | scripts/udoCrawler.ts:36-98 | a successful crawl makes 1 + #chapters + #articles + #sections requests, each followed by one delay |
| Crawler.SectionBuilt | scripts/udoCrawler.ts:76-90 | a section is built iff its page is answered; its title is the anchor text, its url the normalised href and its content the `.text-content` HTML or "" |
| Crawler.ArticleBuilt | scripts/udoCrawler.ts:61-95 | an article is built iff all its requests are answered, with one section per section link on its page, in order |
| Crawler.ChapterBuilt | scripts/udoCrawler.ts:46-98 | a chapter is built iff all its requests are answered, with one article per article link on its page, in order |
| Crawler.CrawlBuilds | scripts/udoCrawler.ts:34-101 | the crawl yields `d` iff `d` has one chapter per base-page link, in order, each built from its link as above (a missing href gives a node with url "") |
| Crawler.CrawlSection | scripts/udoCrawler.ts:76-90 | the imperative section step (record first, content assigned after the fetch) performs exactly the specified events and outcome |
| Crawler.CollectSections | scripts/udoCrawler.ts:75-93 | the section loop, pushing into `article.sections`, equals the specified traversal |
| Crawler.CrawlArticle | scripts/udoCrawler.ts:61-93 | the imperative article step equals its specification |
| Crawler.CollectArticles | scripts/udoCrawler.ts:60-96 | the article loop, pushing into `chapter.articles`, equals the specified traversal |
| Crawler.CrawlChapter | scripts/udoCrawler.ts:46-96 | the imperative chapter step equals its specification |
| Crawler.CollectChapters | scripts/udoCrawler.ts:45-99 | the chapter loop, pushing into `chapters`, equals the specified traversal |
| Crawler.BuildTree | scripts/udoCrawler.ts:36-101 | the whole imperative walk equals `Crawl` |
| Crawler.CrawlUdo | scripts/udoCrawler.ts:34-108 | the file holds the new tree after a successful crawl and is left as it was after any throw |
| Selection.FirstSection | src/App.tsx:34 | an article's answer is its first section, or null when it has none |
| Selection.ChapterLanding | src/App.tsx:30 | a chapter's answer is the first section of its first article, or null when it has no articles or its first article has no sections, whatever later articles hold |
| Selection.SelectedSection | src/App.tsx:25-26 | the result is null without data or without a non-empty path segment |
| Selection.FindConcat | src/App.tsx:28-42 | searching a concatenation searches the second part only after the first part misses |
| Selection.FindFirst | src/App.tsx:28-44 | linear search returns the answer of the first entry with the key, and misses exactly when no entry has it |
| Selection.SectionsFind | src/App.tsx:36-40 | the section loop is that search over the sections |
| Selection.ArticlesFind | src/App.tsx:32-41 | the article loop is that search over each article followed by its sections |
| Selection.ChaptersFind | src/App.tsx:28-42 | the chapter loop is that search over the pre-order outline of the tree |
| Selection.SelectionIsFirstMatch | src/App.tsx:24-45 | the first url in document order that equals the key decides, with a chapter before its articles, an article before its sections, and a chapter's subtree before the next chapter; the result is null when no url equals the key |
| Selection.SectionsMiss | src/App.tsx:36-40 | the section loop misses iff no section has the key, never stops with null, and only returns one of the sections |
| Selection.ArticlesMiss | src/App.tsx:32-41 | the article loop misses iff no article or section url equals the key, and any section it returns is one of those articles' sections |
| Selection.ChaptersMiss | src/App.tsx:28-42 | the chapter loop misses iff no url equals the key, and any section it returns is in the tree |
| Selection.SelectionSound | src/App.tsx:28-44 | null when no url at any level equals the key; a non-null result occurs in the tree |
| Selection.SelectionIgnoresExtraSlashes | src/App.tsx:25 | trailing and doubled slashes in the location do not change the selected section |
| Selection.SlashedUrlNeverKey | src/App.tsx:25 | a url that holds a slash is never the lookup key |
| Navigation.Toggle | src/components/NavigationMenu.tsx:47-50 | the toggled element flips membership and every other element keeps it |
| Navigation.ToggleTwice | src/components/NavigationMenu.tsx:46-60 | toggling the same element twice restores the set |
| Navigation.AllChapterIndices | src/components/NavigationMenu.tsx:64 | exactly the indices 0..n-1 |
| Navigation.TitlesOf | src/components/NavigationMenu.tsx:66 | exactly the titles of the given articles |
| Navigation.AllArticleTitles | src/components/NavigationMenu.tsx:65-67 | exactly the titles of all articles of all chapters |
| Navigation.ListsUrlMeans | src/components/NavigationMenu.tsx:26-27 | the innermost loop's test holds iff some section has the key as url |
| Navigation.ArticlesListUrlMeans | src/components/NavigationMenu.tsx:25-42 | an article list opens its chapter iff some section of it has the key, and opens exactly the titles of the articles holding such a section |
| Navigation.ExpandMeans | src/components/NavigationMenu.tsx:24-43 | the effect opens exactly the indices of chapters, and the titles of articles, that hold a section whose url is the key; chapter and article urls play no part |
| Navigation.NothingToExpand | src/components/NavigationMenu.tsx:27 | with no section url equal to the key, nothing is opened, even if a chapter or article url equals it |
| Navigation.ExpandAllCovers | src/components/NavigationMenu.tsx:62-68 | "Expand All" opens at least what the location effect would open |
| Navigation.ExpansionState.constructor | src/components/NavigationMenu.tsx:12-13 | both sets start empty |
| Navigation.ExpansionState.ToggleChapter | src/components/NavigationMenu.tsx:46-52 | the chapter set becomes the toggle of the old one, so that chapter flips open or closed, and the article set is untouched |
| Navigation.ExpansionState.ToggleArticle | src/components/NavigationMenu.tsx:54-60 | the article set becomes the toggle of the old one, the chapter set is untouched, and every article with that title flips together |
| Navigation.ExpansionState.ExpandAll | src/components/NavigationMenu.tsx:62-68 | without data nothing changes; otherwise chapters are all indices and articles all titles |
| Navigation.ExpansionState.CollapseAll | src/components/NavigationMenu.tsx:70-73 | both sets become empty |
| Navigation.ExpansionState.OpenChapter | src/components/NavigationMenu.tsx:28-33 | the chapter set gains the index (and is the same set when it already held it); nothing else changes |
| Navigation.ExpansionState.OpenArticle | src/components/NavigationMenu.tsx:34-39 | the article set gains the title (the same set when already present); nothing else changes |
| Navigation.ExpansionState.ExpandForSections | src/components/NavigationMenu.tsx:26-41 | the innermost loop adds the chapter index and the article title iff some section has the key |
| Navigation.ExpansionState.ExpandForArticles | src/components/NavigationMenu.tsx:25-42 | the middle loop adds the chapter index iff some article lists the key, and the titles of the articles that do |
| Navigation.ExpansionState.ExpandForChapters | src/components/NavigationMenu.tsx:24-43 | the outer loop adds exactly `ChaptersToExpand` and `TitlesToExpand` and removes nothing |
| Navigation.ExpansionState.AutoExpand | src/components/NavigationMenu.tsx:17-44 | a no-op without data or without a key; otherwise the old sets plus exactly the chapters and titles around sections whose url is the key |
| FlipBook.BoxWidth | src/components/FlipBookViewer.tsx:9-15 | xs 90, sm 75, md 60, lg 45, xl 30 (90 less 15 per step along the scale); a margin missing from the table (an undefined margin) falls back to 90, as the fallback at line 35 does |
| FlipBook.IndexIn | src/components/FlipBookViewer.tsx:9-15 | the position of a margin on the scale |
| FlipBook.WidthDecreases | src/components/FlipBookViewer.tsx:9-15 | the width strictly decreases from xs to xl |
| FlipBook.RewriteUntouched | src/components/FlipBookViewer.tsx:23 | a source that does not contain `http://localhost:5175/` is unchanged |
| FlipBook.RewriteLocalPrefix | src/components/FlipBookViewer.tsx:23 | a source starting with the local prefix becomes the public origin followed by the unchanged remainder; only that first occurrence is rewritten |
| FlipBook.NotIntoPublic | src/components/FlipBookViewer.tsx:23 | no occurrence of the local prefix can run into the public prefix |
| FlipBook.NotFromPublic | src/components/FlipBookViewer.tsx:23 | no occurrence of the local prefix can start inside the public prefix |
| FlipBook.NoLocalAround | src/components/FlipBookViewer.tsx:23 | the public prefix between two strings free of the local prefix leaves a string free of it |
| FlipBook.RewriteSettles | src/components/FlipBookViewer.tsx:23 | a source holding the local prefix at most once holds it nowhere after the rewrite, so rewriting again changes nothing |
| FlipBook.Image.constructor | src/components/FlipBookViewer.tsx:21 | an image holds its source |
| FlipBook.RewriteImages | src/components/FlipBookViewer.tsx:21-24 | every image's source becomes the rewrite of its own old source, independently of the others; the image list is not changed |

## Left out

- Network I/O: the axios client, its User-Agent header and HTTP status handling are not modelled, and neither is the viewer's `fetchUDOData`. Each request is an entry of the abstract `Site` map, and an absent entry is an axios request that throws.
- The 50 ms delay's timing: only the number and placement of delays is modelled, as `Pause` events.
- A throwing `load` (the cheerio parse after each request and its delay) is not told apart from a failed request: parsing never fails in the model, so the trace of a run that parse-failed, which would end `Get(t), Pause`, is not represented.
- cheerio's selectors, `.text()` and `.html()`, and DOMParser: each page is given as its link lists (`itemList`, `bookNav`) and its optional `.text-content` HTML. The serialisation of the processed document (`doc.body.innerHTML`) is also not modelled.
- `path.join(BASE_URL, url)`: a request target is `Child(url)` for the normalised url, so two urls that `path.join` would resolve to the same address are distinct targets here.
- `JSON.stringify` formatting and `fs.writeFileSync`: the output file is a document that is either replaced or left alone. A failure of the write itself is not modelled.
- Console logging in the crawler and the viewer.
- React and Mantine rendering, hooks plumbing (`useMemo`, `useEffect` scheduling, `navigate`) and event wiring. The effect and the menu operations are methods on `ExpansionState`. A functional state update is modelled as a direct update of the field.
- FlipBook.RewriteImages: the image list is a sequence of distinct `Image` objects, as `querySelectorAll` returns them, and the rest of the parsed document is not modelled. The model also does not resolve `img.src` against the document's base URL, as the browser does; a relative source is rewritten as given.
- FlipBook.BoxWidth: widths are percentages as numbers, not the CSS strings `"90%"` etc. The margin is any string, and a string missing from the table gets 90; a string naming an `Object.prototype` member (such as `"toString"`), which the typed margin excludes, would get that member back in JavaScript and is not modelled.
- src/components/Header.tsx, src/components/scrollToHashOrTop.tsx and src/components/SectionLink.tsx are not part of this model. They hold UI state, DOM scrolling and an empty handler.
- src/types.d.ts is not part of this model; the datatypes follow the crawler's record types, which carry `url` at every level.
