/**
  The link filter of `get_sens_links`: of the anchors on the listing page,
  keep those whose lower-cased text mentions "dealings in securities", in
  page order, and make each href absolute by prefixing the site's origin.
 */
module Feed {
  import opened Text

  /** One `.article-summary a` element: its `href` and its visible text. */
  datatype Anchor = Anchor(href: string, text: string)

  const Origin: string := "https://www.moneyweb.co.za"

  /** The listing filter's phrase (plural "dealings"). */
  const Topic: string := "dealings in securities"

  /** The link starts with the site's origin. */
  predicate IsAbsolute(l: string) {
    MatchesAt(l, Origin, 0)
  }

  predicate Kept(a: Anchor) {
    Contains(Lower(a.text), Topic)
  }

  /** The list comprehension that builds `links`. */
  function FeedLinks(anchors: seq<Anchor>): (links: seq<string>)
    ensures |links| <= |anchors|
    ensures forall l :: l in links ==> IsAbsolute(l)
  {
    if anchors == [] then []
    else
      var rest := FeedLinks(anchors[1..]);
      if Kept(anchors[0]) then [Origin + anchors[0].href] + rest else rest
  }

  /** Filtering the page in two pieces keeps page order across the cut. */
  lemma {:induction false} FeedLinksAppend(a: seq<Anchor>, b: seq<Anchor>)
    ensures FeedLinks(a + b) == FeedLinks(a) + FeedLinks(b)
  {
    if a == [] {
      assert a + b == b;
    } else {
      var ab := a + b;
      assert ab[0] == a[0] && ab[1..] == a[1..] + b;
      FeedLinksAppend(a[1..], b);
    }
  }

  /** A link comes out exactly when some kept anchor has that href. */
  lemma {:induction false} FeedLinksMember(anchors: seq<Anchor>, l: string)
    ensures l in FeedLinks(anchors) <==>
      exists i :: 0 <= i < |anchors| && Kept(anchors[i]) && l == Origin + anchors[i].href
  {
    if anchors != [] {
      FeedLinksMember(anchors[1..], l);
      if l in FeedLinks(anchors[1..]) {
        var i :| 0 <= i < |anchors[1..]| && Kept(anchors[1..][i]) && l == Origin + anchors[1..][i].href;
        assert anchors[i + 1] == anchors[1..][i];
      }
      if exists i :: 0 <= i < |anchors| && Kept(anchors[i]) && l == Origin + anchors[i].href {
        var i :| 0 <= i < |anchors| && Kept(anchors[i]) && l == Origin + anchors[i].href;
        if i > 0 {
          assert anchors[1..][i - 1] == anchors[i];
        }
      }
    }
  }
}
