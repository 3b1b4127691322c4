/**
 * The three-level document tree the crawler writes and the viewer reads:
 * chapters hold articles, articles hold sections, and every level carries
 * the `url` path segment it was reached by (scripts/udoCrawler.ts:8-24).
 */
module UdoTree {

  datatype Section = Section(title: string, content: string, url: string)

  datatype Article = Article(title: string, url: string, sections: seq<Section>)

  datatype Chapter = Chapter(title: string, url: string, articles: seq<Article>)

  /** The root object `{ chapters }` that is serialised to the output file. */
  datatype UdoData = UdoData(chapters: seq<Chapter>)

  /** Section `s` occurs somewhere in the tree. */
  ghost predicate InTree(d: UdoData, s: Section)
  {
    exists c, a :: c in d.chapters && a in c.articles && s in a.sections
  }
}
