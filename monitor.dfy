/**
  One run of the monitor (`main`): load the seen set, take the feed's links
  that are not in it, parse each in turn, report those that parse (with the
  ticker taken from the link and its price performance), add each of them to
  the seen set, and save the set at the end.
 */
module Monitor {
  import opened Wrappers
  import opened Text
  import opened Patterns
  import opened Notices
  import opened Feed
  import opened Performance

  /** Appended to the ticker to name the Johannesburg listing for the market-data source. */
  const MarketSuffix: string := ".JO"

  // ----- Ticker derivation -----

  /**
    `ticker_match.group(1) if ticker_match else "Unknown"`: "Unknown", or a
    word found between two dashes after "/sens/" in the link.
   */
  function Ticker(link: string): (r: string)
    ensures r == Unknown || exists p: nat, k: nat :: SensParts(link, p, k, r)
  {
    match Find(SensTicker, link)
    case Some(h) =>
      assert SensAt(link, h.pos) == At(SensTicker, link, h.pos);
      h.group
    case None => Unknown
  }

  /**
    A link that has a word between dashes after a "/sens/" gets a ticker from
    the match: a word laid out the same way, at that "/sens/" or an earlier one.
   */
  lemma TickerFound(link: string, p: nat, k: nat, t: string)
    requires SensParts(link, p, k, t)
    ensures Find(SensTicker, link).Some? && Find(SensTicker, link).value.pos <= p
    ensures exists p': nat, k': nat :: p' <= p && SensParts(link, p', k', Ticker(link))
  {
    SensAtParts(link, p, k, t);
    assert At(SensTicker, link, p).Some?;
    var h := Find(SensTicker, link).value;
    assert h.pos <= p;
    assert SensAt(link, h.pos) == At(SensTicker, link, h.pos);
    var k': nat :| SensParts(link, h.pos, k', h.group);
    assert Ticker(link) == h.group;
    assert SensParts(link, h.pos, k', Ticker(link));
  }

  /**
    The ticker is the word at the first dash pair after the leftmost "/sens/"
    that is followed, on the same line, by a word between dashes.
   */
  lemma TickerLeftmost(link: string, p: nat, k: nat, t: string)
    requires SensParts(link, p, k, t)
    requires forall p': nat, k': nat, t': string :: p' < p ==> !SensParts(link, p', k', t')
    requires forall k': nat, t': string :: k' < k ==> !SensParts(link, p, k', t')
    ensures Ticker(link) == t
  {
    TickerFound(link, p, k, t);
    var h := Find(SensTicker, link).value;
    assert SensAt(link, h.pos) == At(SensTicker, link, h.pos);
    var k0: nat :| SensParts(link, h.pos, k0, h.group);
    assert h.pos == p;
    SensAtFirst(link, p, h.group, k, t);
  }

  /** A link without "/sens/" in it has no ticker. */
  lemma TickerNeedsSens(link: string)
    requires !Contains(link, "/sens/")
    ensures Ticker(link) == Unknown
  {
  }

  /**
    A known ticker's figures come from the history of its Johannesburg
    listing; an "Unknown" ticker gives all "N/A" without asking the
    market-data source.
   */
  function PerfFor(ticker: string, history: string -> Option<seq<Bar>>): (r: Perf)
    ensures ticker != Unknown ==> r == PriceChange(history(ticker + MarketSuffix))
    ensures ticker == Unknown ==> r == AllNA
    ensures r.m12 != NotAvailable ==> r.m6 != NotAvailable
    ensures r.m6 != NotAvailable ==> r.m3 != NotAvailable
  {
    if ticker != Unknown then PriceChange(history(ticker + MarketSuffix)) else AllNA
  }

  // ----- The seen set -----

  /** `set(load_state()["seen"])`: no state file means an empty list. */
  function LoadSeen(stored: Option<seq<string>>): (r: set<string>)
    ensures forall l :: l in r <==> stored.Some? && l in stored.value
  {
    match stored
    case None => {}
    case Some(ids) => set l | l in ids
  }

  /** `[l for l in links if l not in seen]`. */
  function NewLinks(links: seq<string>, seen: set<string>): (r: seq<string>)
    ensures |r| <= |links|
    ensures forall l :: l in r <==> l in links && l !in seen
  {
    if links == [] then []
    else (if links[0] in seen then [] else [links[0]]) + NewLinks(links[1..], seen)
  }

  /** Each unseen link keeps every one of its occurrences; each seen one loses them all. */
  lemma {:induction false} NewLinksCount(links: seq<string>, seen: set<string>, l: string)
    ensures multiset(NewLinks(links, seen))[l] == if l in seen then 0 else multiset(links)[l]
  {
    if links != [] {
      NewLinksCount(links[1..], seen, l);
      assert links == [links[0]] + links[1..];
      assert multiset(links) == multiset([links[0]]) + multiset(links[1..]);
    }
  }

  /** Filtering two pieces of the feed keeps feed order across the cut. */
  lemma {:induction false} NewLinksAppend(a: seq<string>, b: seq<string>, seen: set<string>)
    ensures NewLinks(a + b, seen) == NewLinks(a, seen) + NewLinks(b, seen)
  {
    if a == [] {
      assert a + b == b;
    } else {
      assert (a + b)[0] == a[0] && (a + b)[1..] == a[1..] + b;
      NewLinksAppend(a[1..], b, seen);
    }
  }

  // ----- Parsing and reporting, as functions of the pages -----

  /** One block printed to the console. */
  datatype Report = Report(link: string, notice: Notice, ticker: string, perf: Perf)

  /**
    How a run ends: aborted by an exception (the feed or a notice could not
    be fetched; nothing is saved), or completed with the set it saved, the
    reports it printed, and whether it printed the "no new" line.
   */
  datatype Outcome = Aborted | Completed(saved: set<string>, reports: seq<Report>, noNewLinks: bool)

  /** `parse_sens(link)` when the page was fetched. */
  function ParseOf(page: string -> Option<string>, l: string): (r: Option<Notice>)
    ensures page(l).None? ==> r.None?
    ensures page(l).Some? ==> (r.Some? <==> Contains(Lower(page(l).value), Gate))
    ensures r.Some? ==> r.value.url == l
  {
    match page(l)
    case None => None
    case Some(text) => ParseSens(text, l)
  }

  predicate AllFetched(links: seq<string>, page: string -> Option<string>) {
    forall l :: l in links ==> page(l).Some?
  }

  /** The links the loop adds to the seen set, one at a time in feed order. */
  function Collected(links: seq<string>, page: string -> Option<string>): (r: set<string>)
    ensures forall m :: m in r ==> m in links
    decreases |links|
  {
    if links == [] then {}
    else
      var l := links[|links| - 1];
      Collected(links[..|links| - 1], page) + (if ParseOf(page, l).Some? then {l} else {})
  }

  /** The loop adds exactly the links whose page yields a notice. */
  lemma {:induction false} CollectedMember(links: seq<string>, page: string -> Option<string>, m: string)
    ensures m in Collected(links, page) <==> m in links && ParseOf(page, m).Some?
    decreases |links|
  {
    if links != [] {
      var init := links[..|links| - 1];
      CollectedMember(init, page, m);
      assert links == init + [links[|links| - 1]];
      assert m in links <==> m in init || m == links[|links| - 1];
    }
  }

  /** The block for link `l` whose page parsed to `n`. */
  function ReportOf(l: string, n: Notice, history: string -> Option<seq<Bar>>): (r: Report)
    ensures r.link == l && r.notice == n
    ensures r.ticker == Unknown || exists p: nat, k: nat :: SensParts(l, p, k, r.ticker)
    ensures r.ticker == Unknown ==> r.perf == AllNA
  {
    var t := Ticker(l);
    Report(l, n, t, PerfFor(t, history))
  }

  /** The blocks the loop prints for `links`, in order. */
  function ReportsFor(links: seq<string>, page: string -> Option<string>, history: string -> Option<seq<Bar>>)
    : (reports: seq<Report>)
    ensures |reports| <= |links|
    ensures forall r :: r in reports ==>
      && r.link in links
      && ParseOf(page, r.link) == Some(r.notice)
      && r.notice.url == r.link
      && r.ticker == Ticker(r.link)
      && r.perf == PerfFor(r.ticker, history)
    decreases |links|
  {
    if links == [] then []
    else
      var l := links[|links| - 1];
      var earlier := ReportsFor(links[..|links| - 1], page, history);
      match ParseOf(page, l)
      case None => earlier
      case Some(n) => earlier + [ReportOf(l, n, history)]
  }

  /** Links that all fail to parse add nothing to the seen set. */
  lemma {:induction false} CollectedNone(links: seq<string>, page: string -> Option<string>)
    requires forall l :: l in links ==> ParseOf(page, l).None?
    ensures Collected(links, page) == {}
    decreases |links|
  {
    if links != [] {
      var init := links[..|links| - 1];
      assert forall l :: l in init ==> l in links;
      assert links[|links| - 1] in links;
      CollectedNone(init, page);
    }
  }

  /** Links that all fail to parse print nothing. */
  lemma {:induction false} ReportsForNone(links: seq<string>, page: string -> Option<string>, history: string -> Option<seq<Bar>>)
    requires forall l :: l in links ==> ParseOf(page, l).None?
    ensures ReportsFor(links, page, history) == []
  {
    if links != [] {
      var init := links[..|links| - 1];
      assert forall l :: l in init ==> l in links;
      ReportsForNone(init, page, history);
    }
  }

  /** The blocks for one link: one block when its page parses, none otherwise. */
  lemma ReportsForSingle(l: string, page: string -> Option<string>, history: string -> Option<seq<Bar>>)
    ensures ReportsFor([l], page, history) ==
      match ParseOf(page, l) case None => [] case Some(n) => [ReportOf(l, n, history)]
  {
    assert [l][..0] == [];
  }

  /** The blocks for two stretches of links are those of the first, then those of the second. */
  lemma {:induction false} ReportsForAppend(a: seq<string>, b: seq<string>, page: string -> Option<string>, history: string -> Option<seq<Bar>>)
    ensures ReportsFor(a + b, page, history) == ReportsFor(a, page, history) + ReportsFor(b, page, history)
    decreases |b|
  {
    if b == [] {
      assert a + b == a;
    } else {
      var init := b[..|b| - 1];
      assert (a + b)[..|a + b| - 1] == a + init;
      assert (a + b)[|a + b| - 1] == b[|b| - 1];
      ReportsForAppend(a, init, page, history);
    }
  }

  /** Every listed link whose page parses gets its block. */
  lemma {:induction false} ReportsForMember(links: seq<string>, page: string -> Option<string>, history: string -> Option<seq<Bar>>, l: string)
    requires l in links && ParseOf(page, l).Some?
    ensures ReportOf(l, ParseOf(page, l).value, history) in ReportsFor(links, page, history)
    decreases |links|
  {
    var init := links[..|links| - 1];
    assert links == init + [links[|links| - 1]];
    if l != links[|links| - 1] {
      ReportsForMember(init, page, history, l);
    }
  }

  /** Handling `links[i]` after `links[..i]`: it must be fetched too. */
  lemma FetchedStep(links: seq<string>, i: nat, page: string -> Option<string>)
    requires i < |links|
    ensures AllFetched(links[..i + 1], page) <==> AllFetched(links[..i], page) && page(links[i]).Some?
  {
  }

  /** Handling `links[i]` adds it to the seen set exactly when its page yields a notice. */
  lemma SeenStep(links: seq<string>, i: nat, page: string -> Option<string>, seen0: set<string>, seen: set<string>)
    requires i < |links|
    requires seen == seen0 + Collected(links[..i], page)
    ensures seen + (if ParseOf(page, links[i]).Some? then {links[i]} else {}) ==
      seen0 + Collected(links[..i + 1], page)
  {
    assert links[..i + 1][..i] == links[..i];
  }

  /** Handling `links[i]` adds its report exactly when its page yields a notice. */
  lemma ReportsStep(links: seq<string>, i: nat, page: string -> Option<string>, history: string -> Option<seq<Bar>>)
    requires i < |links|
    ensures ReportsFor(links[..i + 1], page, history) ==
      ReportsFor(links[..i], page, history) +
        (match ParseOf(page, links[i]) case None => [] case Some(n) => [ReportOf(links[i], n, history)])
  {
    assert links[..i + 1][..i] == links[..i];
  }

  // ----- The run -----

  /**
    One turn of `main`'s loop, at `links[i]` after `links[..i]` have been
    handled: fetch and parse the page, and when it yields a notice, build the
    report and add the link to the seen set. `fetched` is false when the
    fetch raises.
   */
  method Visit(
    links: seq<string>, i: nat,
    page: string -> Option<string>, history: string -> Option<seq<Bar>>,
    ghost seen0: set<string>, seen: set<string>, reports: seq<Report>)
    returns (fetched: bool, seen': set<string>, reports': seq<Report>)
    requires i < |links|
    requires AllFetched(links[..i], page)
    requires seen == seen0 + Collected(links[..i], page)
    requires reports == ReportsFor(links[..i], page, history)
    ensures fetched <==> page(links[i]).Some?
    ensures fetched ==>
      && AllFetched(links[..i + 1], page)
      && seen' == seen0 + Collected(links[..i + 1], page)
      && reports' == ReportsFor(links[..i + 1], page, history)
  {
    var link := links[i];
    var text := page(link);
    if text.None? {
      // `requests.get` raises
      return false, seen, reports;
    }
    FetchedStep(links, i, page);
    SeenStep(links, i, page, seen0, seen);
    ReportsStep(links, i, page, history);
    var data := ParseSens(text.value, link);
    assert ParseOf(page, link) == data;
    if data.None? {
      return true, seen, reports;
    }
    var ticker := Ticker(link);
    var perf := PerfFor(ticker, history);
    assert Report(link, data.value, ticker, perf) == ReportOf(link, data.value, history);
    return true, seen + {link}, reports + [Report(link, data.value, ticker, perf)];
  }

  /**
    The loop of `main` over the new links, from `seen0` on: visit each in
    turn, and save at the end.
   */
  method Process(
    newLinks: seq<string>,
    seen0: set<string>,
    page: string -> Option<string>,
    history: string -> Option<seq<Bar>>)
    returns (outcome: Outcome)
    ensures outcome.Aborted? <==> !AllFetched(newLinks, page)
    ensures outcome.Completed? ==>
      && outcome.saved == seen0 + Collected(newLinks, page)
      && outcome.reports == ReportsFor(newLinks, page, history)
      && outcome.noNewLinks == (newLinks == [])
  {
    var seen := seen0;
    var reports: seq<Report> := [];
    var i := 0;
    while i < |newLinks|
      invariant 0 <= i <= |newLinks|
      invariant AllFetched(newLinks[..i], page)
      invariant seen == seen0 + Collected(newLinks[..i], page)
      invariant reports == ReportsFor(newLinks[..i], page, history)
    {
      var fetched;
      fetched, seen, reports := Visit(newLinks, i, page, history, seen0, seen, reports);
      if !fetched {
        // the exception ends the run before `save_state`
        assert newLinks[i] in newLinks;
        return Aborted;
      }
      i := i + 1;
    }
    assert newLinks[..i] == newLinks;
    return Completed(seen, reports, newLinks == []);
  }

  /** `main`, with the feed, the notice pages and the price histories given. */
  method Run(
    stored: Option<seq<string>>,
    feed: Option<seq<Anchor>>,
    page: string -> Option<string>,
    history: string -> Option<seq<Bar>>)
    returns (outcome: Outcome)
    ensures feed.None? ==> outcome.Aborted?
    ensures feed.Some? ==>
      var seen0 := LoadSeen(stored);
      var newLinks := NewLinks(FeedLinks(feed.value), seen0);
      && (outcome.Aborted? <==> !AllFetched(newLinks, page))
      && (outcome.Completed? ==>
            && outcome.saved == seen0 + Collected(newLinks, page)
            && outcome.reports == ReportsFor(newLinks, page, history)
            && (forall r :: r in outcome.reports ==> r.link !in seen0)
            && outcome.noNewLinks == (newLinks == []))
  {
    if feed.None? {
      // `requests.get` of the listing raises before anything is saved
      return Aborted;
    }
    var seen := LoadSeen(stored);
    var newLinks := NewLinks(FeedLinks(feed.value), seen);
    outcome := Process(newLinks, seen, page, history);
    if outcome.Completed? {
      forall r | r in outcome.reports
        ensures r.link !in seen
      {
        assert r.link in newLinks;
      }
    }
  }

  // ----- Properties across runs -----

  /**
    After a completed run the saved set holds exactly the previously seen
    links and the feed links whose page parsed: it never shrinks, and a link
    whose page gave no data is not added.
   */
  lemma {:induction false} SavedSet(seen0: set<string>, links: seq<string>, page: string -> Option<string>, l: string)
    ensures l in seen0 + Collected(NewLinks(links, seen0), page) <==>
      l in seen0 || (l in links && ParseOf(page, l).Some?)
  {
    CollectedMember(NewLinks(links, seen0), page, l);
  }

  /**
    A second run over the same feed and the same pages reports nothing and
    saves the same set; what it finds new are exactly the links that gave no
    data the first time.
   */
  lemma SecondRunQuiet(seen0: set<string>, links: seq<string>, page: string -> Option<string>, history: string -> Option<seq<Bar>>)
    ensures var saved1 := seen0 + Collected(NewLinks(links, seen0), page);
      && (forall l :: l in NewLinks(links, saved1) <==> l in NewLinks(links, seen0) && ParseOf(page, l).None?)
      && ReportsFor(NewLinks(links, saved1), page, history) == []
      && saved1 + Collected(NewLinks(links, saved1), page) == saved1
  {
    var saved1 := seen0 + Collected(NewLinks(links, seen0), page);
    var again := NewLinks(links, saved1);
    forall l
      ensures l in again <==> l in NewLinks(links, seen0) && ParseOf(page, l).None?
    {
      SavedSet(seen0, links, page, l);
    }
    ReportsForNone(again, page, history);
    CollectedNone(again, page);
  }

  /**
    The feed lists `a` then `b`, `a` has been seen before and `b` parses:
    the run reports `b` alone and saves both.
   */
  lemma TwoLinkRun(a: string, b: string, page: string -> Option<string>, history: string -> Option<seq<Bar>>)
    requires a != b
    requires ParseOf(page, b).Some?
    ensures NewLinks([a, b], {a}) == [b]
    ensures {a} + Collected(NewLinks([a, b], {a}), page) == {a, b}
    ensures ReportsFor(NewLinks([a, b], {a}), page, history) == [ReportOf(b, ParseOf(page, b).value, history)]
  {
  }
}
