/** What the three site adapters (Global South Opportunities, Opportunity
    Desk, Opportunities For Youth) have in common: a listing crawl that
    walks numbered pages and keeps the links of recent posts, the filter
    that drops links already stored and applies the test limit, and the
    loop that fetches the detail page of every remaining link. */
module Scraping {
  import opened Common
  import opened Records

  /** `config.ARTICLE_CUTOFF_MONTHS`: posts older than this are ignored. */
  const ArticleCutoffMonths: nat := 12

  /** `config.SCRAPER_TEST_LIMIT`: a positive value caps the number of
      detail pages fetched per adapter; 0 means no cap. */
  const ScraperTestLimit: int := 0

  /** One post of a listing page: the `href` of its link element and the
      text of its date element, each absent when the element is missing. */
  datatype Post = Post(href: Option<string>, dateText: Option<string>)

  /** What an adapter makes of the answer to one listing request: end the
      crawl, or collect the page's posts and, when `more`, go on to the
      next page. */
  datatype Step = Halt | Collect(posts: seq<Post>, more: bool)

  /** Listing pages are numbered from 1. */
  const FirstPage: nat := 1

  /** Whether the crawl ends at this step. */
  predicate Stops(step: Step) {
    step.Halt? || !step.more
  }

  /** The answer to the request for page `page`. The site has pages
      1..`lastPage`; a request beyond them meets the end of the site. */
  function PageStep(fetch: nat -> Step, lastPage: nat, page: nat): Step {
    if page <= lastPage then fetch(page) else Halt
  }

  /** How an adapter reads a post's date: the time it names, None where
      the parser raises ValueError or TypeError (the adapters catch
      those), Raised where it raises anything else (OverflowError, for a
      number too large for a date), which no handler of the crawl
      catches. */
  type DateReader = string -> Completion<Option<int>>

  /** A post the listing loop reads: both elements are present and the
      link has a non-empty href. */
  predicate Dated(post: Post) {
    post.href.Some? && post.href.value != "" && post.dateText.Some?
  }

  /** A post whose link is kept: it is read, and its date reads as a time
      no earlier than the cutoff (the boundary is inclusive; an unreadable
      date drops the post). */
  predicate IsRecent(post: Post, dateOf: DateReader, cutoff: int) {
    && Dated(post)
    && dateOf(post.dateText.value).Normal?
    && dateOf(post.dateText.value).value.Some?
    && dateOf(post.dateText.value).value.value >= cutoff
  }

  /** A post whose date makes the parser raise an error the adapter does
      not catch. */
  predicate DateRaises(post: Post, dateOf: DateReader) {
    Dated(post) && dateOf(post.dateText.value).Raised?
  }

  /** Some post of the page has a date that raises. */
  predicate PageRaises(posts: seq<Post>, dateOf: DateReader) {
    exists post | post in posts :: DateRaises(post, dateOf)
  }

  /** The links one listing page contributes, in page order. */
  function RecentLinks(posts: seq<Post>, dateOf: DateReader, cutoff: int): seq<string>
    decreases |posts|
  {
    if posts == [] then []
    else
      var n := |posts| - 1;
      RecentLinks(posts[..n], dateOf, cutoff)
        + (if IsRecent(posts[n], dateOf, cutoff) then [posts[n].href.value] else [])
  }

  /** A link is contributed exactly when some recent post carries it. */
  lemma {:induction false} RecentLinksMembers(posts: seq<Post>, dateOf: DateReader, cutoff: int, l: string)
    ensures l in RecentLinks(posts, dateOf, cutoff) <==>
      exists k | 0 <= k < |posts| :: IsRecent(posts[k], dateOf, cutoff) && posts[k].href.value == l
    decreases |posts|
  {
    if posts != [] {
      var n := |posts| - 1;
      RecentLinksMembers(posts[..n], dateOf, cutoff, l);
      assert forall k | 0 <= k < n :: posts[..n][k] == posts[k];
    }
  }

  /** The links gathered by the listing crawl from page `page` on; a page
      with a date that raises ends the crawl with the error, and the links
      gathered so far are lost with it. */
  function Crawl(fetch: nat -> Step, lastPage: nat, page: nat, dateOf: DateReader, cutoff: int): Completion<seq<string>>
    decreases lastPage + 1 - page
  {
    match PageStep(fetch, lastPage, page)
    case Halt => Normal([])
    case Collect(posts, more) =>
      if PageRaises(posts, dateOf) then Raised
      else Prefixed(RecentLinks(posts, dateOf, cutoff),
                    if more && page <= lastPage then Crawl(fetch, lastPage, page + 1, dateOf, cutoff) else Normal([]))
  }

  /** Whatever the site would answer after the page that ends the crawl
      changes nothing: two sites that agree up to that page give the same
      outcome. */
  lemma {:induction false} CrawlStopsAtHalt(fetch: nat -> Step, other: nat -> Step, lastPage: nat, page: nat, stop: nat,
                                            dateOf: DateReader, cutoff: int)
    requires page <= stop && Stops(PageStep(fetch, lastPage, stop))
    requires forall n | page <= n <= stop :: PageStep(fetch, lastPage, n) == PageStep(other, lastPage, n)
    ensures Crawl(fetch, lastPage, page, dateOf, cutoff) == Crawl(other, lastPage, page, dateOf, cutoff)
    decreases stop - page
  {
    if page < stop && page <= lastPage {
      CrawlStopsAtHalt(fetch, other, lastPage, page + 1, stop, dateOf, cutoff);
    }
  }

  /** The crawl from `page` goes on to `stop`: every page before it asks
      for more and has no date that raises. */
  predicate Reaches(fetch: nat -> Step, lastPage: nat, page: nat, stop: nat, dateOf: DateReader) {
    && page <= stop
    && forall n | page <= n < stop ::
         !Stops(PageStep(fetch, lastPage, n)) && !PageRaises(PageStep(fetch, lastPage, n).posts, dateOf)
  }

  /** A listing page with a date that raises. */
  predicate RaisingPage(fetch: nat -> Step, lastPage: nat, stop: nat, dateOf: DateReader) {
    PageStep(fetch, lastPage, stop).Collect? && PageRaises(PageStep(fetch, lastPage, stop).posts, dateOf)
  }

  /** A crawl that reaches a page with a date that raises raises, however
      many links the earlier pages gave. */
  lemma {:induction false} CrawlRaisesAt(fetch: nat -> Step, lastPage: nat, page: nat, stop: nat,
                                         dateOf: DateReader, cutoff: int)
    requires Reaches(fetch, lastPage, page, stop, dateOf) && RaisingPage(fetch, lastPage, stop, dateOf)
    ensures Crawl(fetch, lastPage, page, dateOf, cutoff).Raised?
    decreases stop - page
  {
    if page < stop {
      CrawlRaisesAt(fetch, lastPage, page + 1, stop, dateOf, cutoff);
    }
  }

  /** A crawl that raises reached a page with a date that raises: nothing
      else in the crawl raises. */
  lemma {:induction false} CrawlRaisedAt(fetch: nat -> Step, lastPage: nat, page: nat, dateOf: DateReader, cutoff: int)
    returns (stop: nat)
    requires Crawl(fetch, lastPage, page, dateOf, cutoff).Raised?
    ensures Reaches(fetch, lastPage, page, stop, dateOf) && RaisingPage(fetch, lastPage, stop, dateOf)
    decreases lastPage + 1 - page
  {
    if RaisingPage(fetch, lastPage, page, dateOf) {
      return page;
    }
    stop := CrawlRaisedAt(fetch, lastPage, page + 1, dateOf, cutoff);
  }

  /** The site with the request for page `failed` ending in an error. */
  function FailingAt(fetch: nat -> Step, failed: nat): nat -> Step {
    (n: nat) => if n == failed then Halt else fetch(n)
  }

  /** A request error on some page keeps the links gathered before it:
      where the error-free crawl returns, the crawl with the error returns
      a prefix of its links. */
  lemma {:induction false} CrawlErrorKeepsPrefix(fetch: nat -> Step, lastPage: nat, page: nat, failed: nat,
                                                 dateOf: DateReader, cutoff: int)
    requires Crawl(fetch, lastPage, page, dateOf, cutoff).Normal?
    ensures Crawl(FailingAt(fetch, failed), lastPage, page, dateOf, cutoff).Normal?
    ensures Crawl(FailingAt(fetch, failed), lastPage, page, dateOf, cutoff).value <= Crawl(fetch, lastPage, page, dateOf, cutoff).value
    decreases lastPage + 1 - page
  {
    var failing := FailingAt(fetch, failed);
    if page <= lastPage && page != failed {
      assert PageStep(failing, lastPage, page) == PageStep(fetch, lastPage, page);
      match PageStep(fetch, lastPage, page)
      case Halt =>
      case Collect(posts, more) =>
        if more {
          CrawlErrorKeepsPrefix(fetch, lastPage, page + 1, failed, dateOf, cutoff);
        }
    }
  }

  /** Every gathered link is contributed by a collected page within the
      site. */
  lemma {:induction false} CrawlLinksFromPages(fetch: nat -> Step, lastPage: nat, page: nat,
                                               dateOf: DateReader, cutoff: int, l: string)
    requires Crawl(fetch, lastPage, page, dateOf, cutoff).Normal?
    requires l in Crawl(fetch, lastPage, page, dateOf, cutoff).value
    ensures exists n | page <= n <= lastPage ::
      fetch(n).Collect? && l in RecentLinks(fetch(n).posts, dateOf, cutoff)
    decreases lastPage + 1 - page
  {
    match PageStep(fetch, lastPage, page)
    case Collect(posts, more) =>
      if l !in RecentLinks(posts, dateOf, cutoff) {
        CrawlLinksFromPages(fetch, lastPage, page + 1, dateOf, cutoff, l);
      }
  }

  /** The loop over the posts of one listing page: append, in page order,
      the link of every recent post; a date that raises leaves the loop. */
  method AppendRecent(links: seq<string>, posts: seq<Post>, dateOf: DateReader, cutoff: int)
    returns (extended: Completion<seq<string>>)
    ensures extended == if PageRaises(posts, dateOf) then Raised else Normal(links + RecentLinks(posts, dateOf, cutoff))
  {
    var gathered := links;
    for k := 0 to |posts|
      invariant !PageRaises(posts[..k], dateOf)
      invariant gathered == links + RecentLinks(posts[..k], dateOf, cutoff)
    {
      var post := posts[k];
      assert posts[..k + 1][..k] == posts[..k] && posts[..k + 1][k] == post;
      assert forall p | p in posts[..k + 1] :: p in posts[..k] || p == post;
      if Dated(post) {
        match dateOf(post.dateText.value) {
          case Raised =>
            assert DateRaises(post, dateOf) && post in posts;
            return Raised;
          case Normal(when) =>
            if when.Some? && when.value >= cutoff {
              gathered := gathered + [post.href.value];
            }
        }
      }
    }
    assert posts[..|posts|] == posts;
    return Normal(gathered);
  }

  /** One request of the crawl: the outcome of the page, then that of the
      pages after it when the page asks for more. */
  lemma CrawlUnfold(fetch: nat -> Step, lastPage: nat, page: nat, dateOf: DateReader, cutoff: int)
    ensures PageStep(fetch, lastPage, page).Halt? ==> Crawl(fetch, lastPage, page, dateOf, cutoff) == Normal([])
    ensures PageStep(fetch, lastPage, page).Collect? ==>
      Crawl(fetch, lastPage, page, dateOf, cutoff) ==
        if PageRaises(PageStep(fetch, lastPage, page).posts, dateOf) then Raised
        else Prefixed(RecentLinks(PageStep(fetch, lastPage, page).posts, dateOf, cutoff),
                      if Stops(PageStep(fetch, lastPage, page)) then Normal([]) else Crawl(fetch, lastPage, page + 1, dateOf, cutoff))
  {
  }

  /** One pass of the listing loop: request page `page`, append the links
      of its recent posts, and tell whether the loop goes on. */
  method VisitPage(fetch: nat -> Step, lastPage: nat, page: nat, dateOf: DateReader, cutoff: int,
                   links: seq<string>)
    returns (outcome: Completion<seq<string>>, more: bool)
    ensures more ==> outcome.Normal? && page <= lastPage && !Stops(PageStep(fetch, lastPage, page))
    ensures more ==>
      Prefixed(outcome.value, Crawl(fetch, lastPage, page + 1, dateOf, cutoff)) == Prefixed(links, Crawl(fetch, lastPage, page, dateOf, cutoff))
    ensures !more ==> outcome == Prefixed(links, Crawl(fetch, lastPage, page, dateOf, cutoff))
    ensures !more && outcome.Normal? ==> Stops(PageStep(fetch, lastPage, page))
  {
    var step := PageStep(fetch, lastPage, page);
    CrawlUnfold(fetch, lastPage, page, dateOf, cutoff);
    more := false;
    if step.Halt? {
      ConcatAssociative(links, [], []);
      return Normal(links), false;
    }
    outcome := AppendRecent(links, step.posts, dateOf, cutoff);
    if outcome.Raised? {
      assert Prefixed(links, Crawl(fetch, lastPage, page, dateOf, cutoff)) == Raised;
      return;
    }
    ghost var recent := RecentLinks(step.posts, dateOf, cutoff);
    if !step.more {
      assert recent + [] == recent;
      assert Crawl(fetch, lastPage, page, dateOf, cutoff) == Normal(recent);
      return;
    }
    more := true;
    PrefixedTwice(links, recent, Crawl(fetch, lastPage, page + 1, dateOf, cutoff));
  }

  /** The listing loop of `get_opportunity_links`: request page after page
      from page 1, keep the links of the recent posts of each, and stop at
      the step that ends the crawl or at a date that raises. Pages 1 to
      `requested` are requested, each but the last asking for more; the
      last ends the crawl unless its dates raised. */
  method CrawlLinks(fetch: nat -> Step, lastPage: nat, dateOf: DateReader, cutoff: int)
    returns (links: Completion<seq<string>>, requested: nat)
    ensures links == Crawl(fetch, lastPage, FirstPage, dateOf, cutoff)
    ensures 1 <= requested <= lastPage + 1
    ensures forall n | 1 <= n < requested :: !Stops(PageStep(fetch, lastPage, n))
    ensures links.Normal? ==> Stops(PageStep(fetch, lastPage, requested))
  {
    var gathered: seq<string> := [];
    links := Normal([]);
    var page := FirstPage;
    var more := true;
    PrefixedNothing(Crawl(fetch, lastPage, page, dateOf, cutoff));
    while more
      invariant 1 <= page <= lastPage + 1
      invariant forall n | 1 <= n < page :: !Stops(PageStep(fetch, lastPage, n))
      invariant more ==> Prefixed(gathered, Crawl(fetch, lastPage, page, dateOf, cutoff)) == Crawl(fetch, lastPage, FirstPage, dateOf, cutoff)
      invariant !more ==> links == Crawl(fetch, lastPage, FirstPage, dateOf, cutoff)
      invariant !more && links.Normal? ==> Stops(PageStep(fetch, lastPage, page))
      decreases lastPage + 1 - page, more
    {
      var outcome;
      outcome, more := VisitPage(fetch, lastPage, page, dateOf, cutoff, gathered);
      if more {
        gathered := outcome.value;
        page := page + 1;
      } else {
        links := outcome;
      }
    }
    requested := page;
  }

  // ---------------------------------------------------------------------
  // Links to scrape
  // ---------------------------------------------------------------------

  /** `[link for link in recent if link not in existing_links]`. */
  function FilterNew(recent: seq<string>, existing: set<string>): (r: seq<string>)
    ensures IsSubsequence(r, recent)
    ensures forall l :: l in r <==> l in recent && l !in existing
  {
    Filter(recent, l => l !in existing)
  }

  /** The test limit: a positive limit keeps the first min(len, limit)
      links; zero or less keeps them all. */
  function ApplyTestLimit(links: seq<string>, limit: int): (r: seq<string>)
    ensures r <= links
    ensures |r| == if limit > 0 then Min(|links|, limit) else |links|
  {
    if limit > 0 then links[..Min(|links|, limit)] else links
  }

  function LinksToScrape(recent: seq<string>, existing: set<string>, limit: int): seq<string> {
    ApplyTestLimit(FilterNew(recent, existing), limit)
  }

  /** The links to scrape are recent, never already stored, and at most
      `limit` of them when the limit is positive. */
  lemma LinksToScrapeBounds(recent: seq<string>, existing: set<string>, limit: int)
    ensures forall l | l in LinksToScrape(recent, existing, limit) :: l in recent && l !in existing
    ensures limit > 0 ==> |LinksToScrape(recent, existing, limit)| <= limit
    ensures limit <= 0 ==> LinksToScrape(recent, existing, limit) == FilterNew(recent, existing)
  {
    var r := LinksToScrape(recent, existing, limit);
    forall l | l in r
      ensures l in recent && l !in existing
    {
      var i :| 0 <= i < |r| && r[i] == l;
      assert l in FilterNew(recent, existing);
    }
  }

  // ---------------------------------------------------------------------
  // Detail pages
  // ---------------------------------------------------------------------

  /** The records of the detail pages, in link order; a page that yields
      no record is skipped. */
  function Collected(links: seq<string>, detail: string -> Option<RawRecord>): seq<RawRecord>
    decreases |links|
  {
    if links == [] then []
    else
      var n := |links| - 1;
      Collected(links[..n], detail) + (match detail(links[n]) case Some(r) => [r] case None => [])
  }

  /** A record is collected exactly when it is the record of one of the
      links. */
  lemma {:induction false} CollectedMembers(links: seq<string>, detail: string -> Option<RawRecord>, r: RawRecord)
    ensures r in Collected(links, detail) <==> exists k | 0 <= k < |links| :: detail(links[k]) == Some(r)
    ensures |Collected(links, detail)| <= |links|
    decreases |links|
  {
    if links != [] {
      var n := |links| - 1;
      CollectedMembers(links[..n], detail, r);
      assert forall k | 0 <= k < n :: links[..n][k] == links[k];
    }
  }

  /** The detail loop of the adapters: fetch each link in turn and append
      its record when there is one. */
  method CollectDetails(links: seq<string>, detail: string -> Option<RawRecord>) returns (records: seq<RawRecord>)
    ensures records == Collected(links, detail)
  {
    records := [];
    for k := 0 to |links|
      invariant records == Collected(links[..k], detail)
    {
      assert links[..k + 1][..k] == links[..k] && links[..k + 1][k] == links[k];
      var details := detail(links[k]);
      if details.Some? {
        records := records + [details.value];
      }
    }
    assert links[..|links|] == links;
  }

  // ---------------------------------------------------------------------
  // Detail pages with a required title
  // ---------------------------------------------------------------------

  /** The answer to a detail request: an error, or a page with the text
      of its `h1.entry-title` and of its `div.entry-content` when present. */
  datatype DetailResponse = DetailFailed | DetailPage(heading: Option<string>, content: Option<string>)

  /** The title the Global South Opportunities and Opportunities For
      Youth adapters put in place of a missing heading, and then test for. */
  const TitleNotFound := "Title not found"

  /** `scrape_opportunity_details` of the two adapters that need a title:
      an error, a missing heading or a heading reading exactly
      "Title not found" yields nothing; otherwise a record with the URL
      as its link, the adapter's source name and the content text (empty
      when the content element is missing). */
  function TitledDetails(url: string, response: DetailResponse, source: string): (r: Option<RawRecord>)
    ensures r.Some? <==> response.DetailPage? && response.heading.Some? && response.heading.value != TitleNotFound
    ensures r.Some? ==> r.value == RawRecord(response.heading.value, url, source,
                                             if response.content.Some? then response.content.value else "")
  {
    match response
    case DetailFailed => None
    case DetailPage(heading, content) =>
      var title := if heading.Some? then heading.value else TitleNotFound;
      if title == TitleNotFound then None
      else Some(RawRecord(title, url, source, if content.Some? then content.value else ""))
  }

  // ---------------------------------------------------------------------
  // One adapter run
  // ---------------------------------------------------------------------

  /** What an adapter is handed by the collector: the stored links; what
      it gives back: its records, or an exception. */
  type Scraper = set<string> -> Completion<seq<RawRecord>>

  /** The clock and the date library as the adapters use them: the
      current time in seconds, `now - relativedelta(months=k)`, and
      `dateutil.parser.parse(text).replace(tzinfo=utc)`. */
  datatype Clock = Clock(now: int, monthsBefore: (int, nat) -> int, parse: DateReader)

  /** The publication cutoff: `ArticleCutoffMonths` months before now. */
  function Cutoff(clock: Clock): int {
    clock.monthsBefore(clock.now, ArticleCutoffMonths)
  }

  /** A site as an adapter sees it: the step it makes of each listing
      page, how many pages there are, how it reads a post's date, and the
      record it makes of a detail page. */
  datatype Site = Site(
    fetch: nat -> Step,
    lastPage: nat,
    dateOf: DateReader,
    detail: string -> Option<RawRecord>)

  /** A detail reader that puts the URL it was given in the record. */
  ghost predicate KeepsLink(detail: string -> Option<RawRecord>) {
    forall url | detail(url).Some? :: detail(url).value.link == url
  }

  function SiteCrawl(site: Site, cutoff: int): Completion<seq<string>> {
    Crawl(site.fetch, site.lastPage, FirstPage, site.dateOf, cutoff)
  }

  /** What one adapter returns for the set of stored links: nothing but
      the error when the crawl raises, since the error leaves the adapter. */
  function SiteRecords(site: Site, cutoff: int, existing: set<string>, limit: int): Completion<seq<RawRecord>> {
    match SiteCrawl(site, cutoff)
    case Raised => Raised
    case Normal(links) => Normal(Collected(LinksToScrape(links, existing, limit), site.detail))
  }

  /** An adapter raises exactly when its crawl does; otherwise it never
      returns a stored link, returns only links its crawl found, and
      returns at most `limit` records when the limit is positive. */
  lemma SiteRecordsAreNew(site: Site, cutoff: int, existing: set<string>, limit: int)
    requires KeepsLink(site.detail)
    ensures SiteRecords(site, cutoff, existing, limit).Raised? <==> SiteCrawl(site, cutoff).Raised?
    ensures SiteRecords(site, cutoff, existing, limit).Normal? ==>
      var records := SiteRecords(site, cutoff, existing, limit).value;
      && (forall r | r in records :: r.link !in existing && r.link in SiteCrawl(site, cutoff).value)
      && (limit > 0 ==> |records| <= limit)
  {
    if SiteCrawl(site, cutoff).Normal? {
      var crawled := SiteCrawl(site, cutoff).value;
      var links := LinksToScrape(crawled, existing, limit);
      LinksToScrapeBounds(crawled, existing, limit);
      forall r | r in SiteRecords(site, cutoff, existing, limit).value
        ensures r.link in links
      {
        CollectedMembers(links, site.detail, r);
        var k :| 0 <= k < |links| && site.detail(links[k]) == Some(r);
      }
      if limit > 0 {
        CollectedMembers(links, site.detail, RawRecord("", "", "", ""));
      }
    }
  }

  /** The body of `scrape_gso`, `scrape_od` and `scrape_ofy` after the
      session is set up: crawl the listing, keep the new links under the
      test limit, and collect their detail pages; an error from the crawl
      leaves the adapter. */
  method ScrapeSite(site: Site, cutoff: int, existing: set<string>, limit: int)
    returns (records: Completion<seq<RawRecord>>, requested: nat)
    ensures records == SiteRecords(site, cutoff, existing, limit)
    ensures 1 <= requested <= site.lastPage + 1
    ensures forall n | 1 <= n < requested :: !Stops(PageStep(site.fetch, site.lastPage, n))
    ensures records.Normal? ==> Stops(PageStep(site.fetch, site.lastPage, requested))
  {
    var recent;
    recent, requested := CrawlLinks(site.fetch, site.lastPage, site.dateOf, cutoff);
    if recent.Raised? {
      return Raised, requested;
    }
    var toScrape := ApplyTestLimit(FilterNew(recent.value, existing), limit);
    var collected := [];
    if toScrape != [] {
      collected := CollectDetails(toScrape, site.detail);
    }
    records := Normal(collected);
  }
}
