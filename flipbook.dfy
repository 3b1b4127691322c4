/**
 * The section viewer (src/components/FlipBookViewer.tsx): the width of the
 * content box chosen from a margin size, and the rewrite of image sources
 * from the development host to the public host before the content is shown.
 */
module FlipBook {
  import opened Strings

  /** Box width, in percent, per margin size. */
  const WidthLookup: map<string, nat> := map["xs" := 90, "sm" := 75, "md" := 60, "lg" := 45, "xl" := 30]

  /** The margin sizes from narrowest margin to widest. */
  const Margins: seq<string> := ["xs", "sm", "md", "lg", "xl"]

  /** Width in percent; a margin missing from the table falls back to 90. */
  function BoxWidth(margin: string): (r: nat)
    ensures r in {30, 45, 60, 75, 90}
    ensures margin !in Margins ==> r == 90
    ensures margin in Margins ==> r == 90 - 15 * IndexIn(Margins, margin)
  {
    if margin in WidthLookup then WidthLookup[margin] else 90
  }

  /** Position of `x` in `xs`. */
  function IndexIn(xs: seq<string>, x: string): (i: nat)
    requires x in xs
    ensures i < |xs| && xs[i] == x
    ensures forall j :: 0 <= j < i ==> xs[j] != x
  {
    if xs[0] == x then 0 else 1 + IndexIn(xs[1..], x)
  }

  /** A wider margin never gives a wider box: the width strictly decreases along the scale. */
  lemma WidthDecreases(i: nat, j: nat)
    requires i < j < |Margins|
    ensures BoxWidth(Margins[i]) > BoxWidth(Margins[j])
  {
    assert IndexIn(Margins, Margins[i]) == i;
    assert IndexIn(Margins, Margins[j]) == j;
  }

  /**
   * The prefix an image source carries once the browser has resolved a
   * relative `src` of the content against the development server's page ...
   */
  const Local := "http://localhost:5175/"
  /** ... and the host they are served from. */
  const Public := "https://udo.raleighnc.gov/"

  /** The per-image rewrite: the first occurrence of the local host prefix becomes the public one. */
  function RewriteSrc(src: string): string
  {
    ReplaceFirst(src, Local, Public)
  }

  /** A source that does not mention the local host is kept. */
  lemma RewriteUntouched(src: string)
    requires forall j :: 0 <= j <= |src| ==> !OccursAt(src, Local, j)
    ensures RewriteSrc(src) == src
  {
    ReplaceAbsent(src, Local, Public);
  }

  /**
   * A source on the local host moves to the public host with its path kept;
   * only that first occurrence is rewritten, so `Local + Local` becomes
   * `Public + Local`.
   */
  lemma RewriteLocalPrefix(rest: string)
    ensures RewriteSrc(Local + rest) == Public + rest
  {
    ReplaceLeading(rest, Local, Public);
  }

  lemma Differs(r: string, m: nat, j: nat)
    requires m + |Local| <= |r| && j < |Local| && r[m + j] != Local[j]
    ensures !OccursAt(r, Local, m)
  {
    assert r[m..m + |Local|][j] == r[m + j];
  }

  /** Inside the local prefix the letter 'h' only starts "host". */
  lemma LocalH(k: nat)
    requires 0 < k < |Local| && Local[k] == 'h'
    ensures k == 12
  {
  }

  /** The public prefix has the letter 'h' only at the start of "https" and of "hnc". */
  lemma PublicH(t: nat)
    requires t < |Public| && Public[t] == 'h'
    ensures t == 0 || t == 18
  {
  }

  /** An occurrence cannot begin before a copy of the public prefix at `p` and reach into it. */
  lemma NotIntoPublic(r: string, p: nat, m: nat)
    requires p + |Public| <= |r| && r[p..p + |Public|] == Public
    requires m < p < m + |Local| <= |r|
    ensures !OccursAt(r, Local, m)
  {
    var k := p - m;
    assert r[p] == r[p..p + |Public|][0];
    if Local[k] == 'h' {
      LocalH(k);
      assert r[m + 13] == r[p..p + |Public|][1];
      Differs(r, m, 13);
    } else {
      Differs(r, m, k);
    }
  }

  /** An occurrence cannot begin inside a copy of the public prefix at `p`. */
  lemma NotFromPublic(r: string, p: nat, m: nat)
    requires p + |Public| <= |r| && r[p..p + |Public|] == Public
    requires p <= m < p + |Public| && m + |Local| <= |r|
    ensures !OccursAt(r, Local, m)
  {
    var t := m - p;
    assert r[m] == r[p..p + |Public|][t];
    if Public[t] == 'h' {
      PublicH(t);
      if t == 0 {
        assert r[m + 4] == r[p..p + |Public|][4];
        Differs(r, m, 4);
      } else {
        assert r[m + 1] == r[p..p + |Public|][19];
        Differs(r, m, 1);
      }
    } else {
      Differs(r, m, 0);
    }
  }

  /**
   * The public prefix cannot complete or start an occurrence of the local
   * prefix, so gluing it between two strings free of the local prefix gives
   * a string free of it.
   */
  lemma NoLocalAround(pre: string, post: string)
    requires forall j :: 0 <= j <= |pre| ==> !OccursAt(pre, Local, j)
    requires forall j :: 0 <= j <= |post| ==> !OccursAt(post, Local, j)
    ensures forall m :: 0 <= m <= |pre + Public + post| ==> !OccursAt(pre + Public + post, Local, m)
  {
    var r := pre + Public + post;
    var p := |pre|;
    assert r[p..p + |Public|] == Public;
    forall m | 0 <= m <= |r|
      ensures !OccursAt(r, Local, m)
    {
      if m + |Local| <= |r| {
        if m + |Local| <= p {
          assert r[m..m + |Local|] == pre[m..m + |Local|];
          assert !OccursAt(pre, Local, m);
        } else if m < p {
          NotIntoPublic(r, p, m);
        } else if m < p + |Public| {
          NotFromPublic(r, p, m);
        } else {
          var q := m - p - |Public|;
          assert r[m..m + |Local|] == post[q..q + |Local|];
          assert !OccursAt(post, Local, q);
        }
      }
    }
  }

  /**
   * A source mentioning the local host at most once carries no mention of
   * it after the rewrite, so a second rewrite changes nothing.
   */
  lemma RewriteSettles(src: string)
    requires forall j, k :: OccursAt(src, Local, j) && OccursAt(src, Local, k) ==> j == k
    ensures forall m :: 0 <= m <= |RewriteSrc(src)| ==> !OccursAt(RewriteSrc(src), Local, m)
    ensures RewriteSrc(RewriteSrc(src)) == RewriteSrc(src)
  {
    var found := IndexFrom(src, Local, 0);
    match found
    case None =>
      RewriteUntouched(src);
    case Some(i) =>
      assert OccursAt(src, Local, i);
      var pre := src[..i];
      var post := src[i + |Local|..];
      forall j | 0 <= j <= |pre| ensures !OccursAt(pre, Local, j) {
        if j + |Local| <= |pre| {
          assert pre[j..j + |Local|] == src[j..j + |Local|];
          assert !OccursAt(src, Local, j);
        }
      }
      forall j | 0 <= j <= |post| ensures !OccursAt(post, Local, j) {
        if j + |Local| <= |post| {
          assert post[j..j + |Local|] == src[i + |Local| + j..i + |Local| + j + |Local|];
          assert !OccursAt(src, Local, i + |Local| + j);
        }
      }
      NoLocalAround(pre, post);
      assert RewriteSrc(src) == pre + Public + post;
      RewriteUntouched(RewriteSrc(src));
  }

  /** An `<img>` element of the parsed content; its `src` is written in place. */
  class Image {
    var src: string

    constructor(src: string)
      ensures this.src == src
    {
      this.src := src;
    }
  }

  /** `processContent`'s loop: every image of the document gets its source rewritten once. */
  method RewriteImages(images: seq<Image>)
    requires forall i, j :: 0 <= i < j < |images| ==> images[i] != images[j]
    modifies set img | img in images
    ensures forall i :: 0 <= i < |images| ==> images[i].src == RewriteSrc(old(images[i].src))
  {
    for k := 0 to |images|
      invariant forall i :: 0 <= i < k ==> images[i].src == RewriteSrc(old(images[i].src))
      invariant forall i :: k <= i < |images| ==> images[i].src == old(images[i].src)
    {
      images[k].src := RewriteSrc(images[k].src);
    }
  }
}
