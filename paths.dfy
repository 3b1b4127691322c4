/**
 * The viewer's lookup key: `pathname.split("/").filter(Boolean)` and its last
 * element (src/App.tsx:25, src/components/NavigationMenu.tsx:20-23).
 */
module Paths {
  import opened Wrappers

  /** Index of the first slash in `s`, or `|s|` when there is none. */
  function SlashIndex(s: string): (i: nat)
    ensures i <= |s|
    ensures i < |s| ==> s[i] == '/'
    ensures forall j :: 0 <= j < i ==> s[j] != '/'
  {
    if s == [] || s[0] == '/' then 0 else 1 + SlashIndex(s[1..])
  }

  /** `s.split("/")`: the pieces between slashes. */
  function Split(s: string): seq<string>
    decreases |s|
  {
    var i := SlashIndex(s);
    if i == |s| then [s] else [s[..i]] + Split(s[i + 1..])
  }

  /** `xs.join("/")`. */
  function Join(xs: seq<string>): string
  {
    if |xs| == 0 then ""
    else if |xs| == 1 then xs[0]
    else xs[0] + "/" + Join(xs[1..])
  }

  /** `xs.filter(Boolean)` on strings: drops the empty pieces, keeps the order. */
  function NonEmpty(xs: seq<string>): (r: seq<string>)
    ensures forall k :: 0 <= k < |r| ==> r[k] != ""
  {
    if xs == [] then []
    else if xs[0] == "" then NonEmpty(xs[1..])
    else [xs[0]] + NonEmpty(xs[1..])
  }

  /** The non-empty path segments. */
  function Segments(p: string): seq<string>
  {
    NonEmpty(Split(p))
  }

  /** `.at(-1)` of the segments: the key the viewer looks up. */
  function LastSegment(p: string): Option<string>
  {
    var segs := Segments(p);
    if |segs| == 0 then None else Some(segs[|segs| - 1])
  }

  lemma SlashIndexAt(s: string, i: nat)
    requires i <= |s|
    requires i < |s| ==> s[i] == '/'
    requires forall j :: 0 <= j < i ==> s[j] != '/'
    ensures SlashIndex(s) == i
  {
  }

  /** Splitting at the first slash. */
  lemma SplitAt(s: string, i: nat)
    requires i < |s| && SlashIndex(s) == i
    ensures Split(s) == [s[..i]] + Split(s[i + 1..])
  {
  }

  /** A string without a slash is one piece. */
  lemma SplitWhole(s: string)
    requires SlashIndex(s) == |s|
    ensures Split(s) == [s]
  {
  }

  /** Splitting loses nothing: joining the pieces with "/" restores the path. */
  lemma {:induction false} JoinSplit(s: string)
    ensures Join(Split(s)) == s
    decreases |s|
  {
    var i := SlashIndex(s);
    if i < |s| {
      var piece, rest := s[..i], s[i + 1..];
      SplitAt(s, i);
      JoinSplit(rest);
      var pieces := Split(rest);
      assert |pieces| >= 1 by {
        var k := SlashIndex(rest);
        if k < |rest| {
          SplitAt(rest, k);
        } else {
          SplitWhole(rest);
        }
      }
      assert Join([piece] + pieces) == piece + "/" + Join(pieces) by {
        assert ([piece] + pieces)[0] == piece;
        assert ([piece] + pieces)[1..] == pieces;
      }
      assert s == piece + "/" + rest;
    } else {
      SplitWhole(s);
    }
  }

  /** No piece of a split holds a slash. */
  lemma {:induction false} SplitPiecesPlain(s: string)
    ensures forall k :: 0 <= k < |Split(s)| ==> '/' !in Split(s)[k]
    decreases |s|
  {
    var i := SlashIndex(s);
    if i < |s| {
      var rest := s[i + 1..];
      SplitAt(s, i);
      SplitPiecesPlain(rest);
      assert '/' !in s[..i];
      assert forall k :: 1 <= k < |Split(s)| ==> Split(s)[k] == Split(rest)[k - 1];
    } else {
      SplitWhole(s);
      assert '/' !in s;
    }
  }

  /** The first slash of `a/b` is the first slash of `a`, or the separator. */
  lemma SlashIndexThrough(a: string, b: string)
    ensures SlashIndex(a + "/" + b) == SlashIndex(a)
  {
    var s := a + "/" + b;
    var i := SlashIndex(a);
    assert forall j :: 0 <= j < i ==> s[j] == a[j];
    assert s[i] == '/' by {
      if i < |a| {
        assert s[i] == a[i];
      }
    }
    SlashIndexAt(s, i);
  }

  /** The pieces of `a/b` when `a` has no slash. */
  lemma SplitAroundPlain(a: string, b: string)
    requires SlashIndex(a) == |a|
    ensures Split(a + "/" + b) == [a] + Split(b)
  {
    var s := a + "/" + b;
    SlashIndexThrough(a, b);
    SplitAt(s, |a|);
    assert s[..|a|] == a && s[|a| + 1..] == b;
  }

  /** The pieces of `a/b` when `a` has a slash at `i`. */
  lemma SplitAroundStep(a: string, b: string, i: nat)
    requires i < |a| && SlashIndex(a) == i
    ensures Split(a + "/" + b) == [a[..i]] + Split(a[i + 1..] + "/" + b)
  {
    var s := a + "/" + b;
    SlashIndexThrough(a, b);
    SplitAt(s, i);
    assert s[..i] == a[..i] && s[i + 1..] == a[i + 1..] + "/" + b;
  }

  /** A slash separates: the pieces of `a/b` are the pieces of `a` followed by those of `b`. */
  lemma {:induction false} SplitAround(a: string, b: string)
    ensures Split(a + "/" + b) == Split(a) + Split(b)
    decreases |a|
  {
    var i := SlashIndex(a);
    if i == |a| {
      SplitAroundPlain(a, b);
      SplitWhole(a);
    } else {
      var piece, rest := a[..i], a[i + 1..];
      SplitAroundStep(a, b, i);
      SplitAround(rest, b);
      SplitAt(a, i);
      assert [piece] + (Split(rest) + Split(b)) == ([piece] + Split(rest)) + Split(b);
    }
  }

  lemma {:induction false} NonEmptyConcat(xs: seq<string>, ys: seq<string>)
    ensures NonEmpty(xs + ys) == NonEmpty(xs) + NonEmpty(ys)
  {
    if xs == [] {
      assert xs + ys == ys;
    } else {
      var zs := xs + ys;
      assert zs[0] == xs[0] && zs[1..] == xs[1..] + ys;
      NonEmptyConcat(xs[1..], ys);
      var tail := NonEmpty(xs[1..]) + NonEmpty(ys);
      assert NonEmpty(zs) == (if xs[0] == "" then tail else [xs[0]] + tail);
      assert NonEmpty(xs) == (if xs[0] == "" then NonEmpty(xs[1..]) else [xs[0]] + NonEmpty(xs[1..]));
    }
  }

  /** A trailing slash does not change the key. */
  lemma TrailingSlash(p: string)
    ensures LastSegment(p + "/") == LastSegment(p)
  {
    SplitAround(p, "");
    assert p + "/" + "" == p + "/";
    NonEmptyConcat(Split(p), [""]);
  }

  /** A doubled slash does not change the key. */
  lemma DoubledSlash(a: string, b: string)
    ensures LastSegment(a + "//" + b) == LastSegment(a + "/" + b)
  {
    var left, right := Split(a), Split(b);
    assert Split("/" + b) == [""] + right by {
      SplitAround("", b);
      assert "" + "/" + b == "/" + b;
    }
    assert Segments(a + "//" + b) == NonEmpty(left) + NonEmpty(right) by {
      assert a + "//" + b == a + "/" + ("/" + b);
      SplitAround(a, "/" + b);
      NonEmptyConcat(left, [""] + right);
      assert NonEmpty([""] + right) == NonEmpty(right) by {
        assert ([""] + right)[1..] == right;
      }
    }
    assert Segments(a + "/" + b) == NonEmpty(left) + NonEmpty(right) by {
      SplitAround(a, b);
      NonEmptyConcat(left, right);
    }
  }

  /** A path has no key exactly when it consists of slashes only (the empty path included). */
  lemma {:induction false} NoSegment(p: string)
    ensures LastSegment(p).None? <==> forall i :: 0 <= i < |p| ==> p[i] == '/'
    decreases |p|
  {
    var i := SlashIndex(p);
    if i < |p| {
      var rest := p[i + 1..];
      NoSegment(rest);
      NonEmptyConcat([p[..i]], Split(rest));
      if i == 0 {
        assert forall j :: 1 <= j < |p| ==> p[j] == rest[j - 1];
      } else {
        assert p[..i] != "";
      }
    } else if p != "" {
      assert Split(p) == [p];
      assert NonEmpty([p]) == [p] + NonEmpty([]);
      assert p[0] != '/';
    }
  }

  /** Every kept piece is one of the input pieces. */
  lemma {:induction false} NonEmptyFrom(xs: seq<string>)
    ensures forall k :: 0 <= k < |NonEmpty(xs)| ==> NonEmpty(xs)[k] in xs
  {
    if xs != [] {
      NonEmptyFrom(xs[1..]);
      assert forall x :: x in xs[1..] ==> x in xs;
    }
  }

  /** The key, when there is one, is a non-empty string without slashes. */
  lemma LastSegmentPlain(p: string)
    ensures LastSegment(p).Some? ==> LastSegment(p).value != "" && '/' !in LastSegment(p).value
  {
    SplitPiecesPlain(p);
    NonEmptyFrom(Split(p));
  }

  /** The viewer's own links `/<url>` (under any prefix) are keyed by that url, when it is non-empty and slash-free. */
  lemma LinkPathKey(prefix: string, url: string)
    requires url != "" && '/' !in url
    ensures LastSegment(prefix + "/" + url) == Some(url)
  {
    SplitAround(prefix, url);
    SlashIndexAt(url, |url|);
    NonEmptyConcat(Split(prefix), [url]);
  }
}
