/** The Opportunity Desk adapter (od_scraper.py): numbered listing pages
    under one base URL, ended by a 404; detail pages whose missing title
    is rebuilt from the URL slug; and the retry session it asks for. */
module Od {
  import opened Common
  import opened Records
  import opened Scraping

  const SourceName := "Opportunity Desk"

  const BaseUrl := "https://opportunitydesk.org/category/grants/"

  // ---------------------------------------------------------------------
  // Page URLs
  // ---------------------------------------------------------------------

  /** Page 1 is the base URL; page n > 1 is `base_url + "page/n/"`. */
  function PageUrl(n: nat): string {
    if n > 1 then BaseUrl + "page/" + NatToString(n) + "/" else BaseUrl
  }

  /** Distinct pages have distinct URLs, so no page is requested twice. */
  lemma PageUrlInjective(n: nat, m: nat)
    requires n >= 1 && m >= 1 && PageUrl(n) == PageUrl(m)
    ensures n == m
  {
    var prefix := BaseUrl + "page/";
    if n > 1 && m > 1 {
      var a, b := NatToString(n), NatToString(m);
      assert PageUrl(n) == prefix + (a + "/") && PageUrl(m) == prefix + (b + "/");
      assert |a| == |b|;
      assert a == PageUrl(n)[|prefix|..|prefix| + |a|];
      assert b == PageUrl(m)[|prefix|..|prefix| + |b|];
      NatToStringRoundTrip(n);
      NatToStringRoundTrip(m);
    }
  }

  // ---------------------------------------------------------------------
  // Listing pages
  // ---------------------------------------------------------------------

  /** The answer to a listing request: 404, another error, or a page with
      its `article.l-post` posts. */
  datatype ListingResponse = NotFound | ListingFailed | Listing(articles: seq<Post>)

  /** A 404, an error or a page without articles ends the crawl; any
      other page is followed by the next page number. */
  function ListingStep(response: ListingResponse): (step: Step)
    ensures step.Collect? <==> response.Listing? && response.articles != []
    ensures step.Collect? ==> step.posts == response.articles && step.more
  {
    match response
    case NotFound => Halt
    case ListingFailed => Halt
    case Listing(articles) => if articles == [] then Halt else Collect(articles, true)
  }

  // ---------------------------------------------------------------------
  // Detail pages
  // ---------------------------------------------------------------------

  /** The part of `s` after its last "/" (all of `s` when it has none):
      `s.split('/')[-1]`. */
  function LastSegment(s: string): (r: string)
    ensures |r| <= |s| && r == s[|s| - |r|..]
    ensures '/' !in r
    ensures |r| < |s| ==> s[|s| - |r| - 1] == '/'
    decreases |s|
  {
    if s == [] || s[|s| - 1] == '/' then []
    else LastSegment(s[..|s| - 1]) + [s[|s| - 1]]
  }

  /** Python's `str.title()` on ASCII text: a letter that follows a letter
      is lower-cased, any other letter is upper-cased. */
  function TitleCase(s: string): (r: string)
    ensures |r| == |s|
    ensures forall i | 0 <= i < |s| ::
      r[i] == if i > 0 && IsCased(s[i - 1]) then LowerChar(s[i]) else UpperChar(s[i])
  {
    seq(|s|, i requires 0 <= i < |s| => if i > 0 && IsCased(s[i - 1]) then LowerChar(s[i]) else UpperChar(s[i]))
  }

  /** The title made from a URL path: strip the slashes at both ends, take
      the last segment, turn hyphens into spaces, and title-case it. */
  function SlugTitle(path: string): string {
    TitleCase(ReplaceChar(LastSegment(StripChar(path, '/')), '-', ' '))
  }

  lemma CaseKeepsCased(c: char)
    ensures IsCased(LowerChar(c)) == IsCased(c) && IsCased(UpperChar(c)) == IsCased(c)
    ensures LowerChar(UpperChar(c)) == LowerChar(c) && UpperChar(LowerChar(c)) == UpperChar(c)
  {
  }

  /** Title-casing a title changes nothing. */
  lemma TitleCaseIdempotent(s: string)
    ensures TitleCase(TitleCase(s)) == TitleCase(s)
  {
    var t := TitleCase(s);
    forall i | 0 <= i < |s|
      ensures TitleCase(t)[i] == t[i]
    {
      CaseKeepsCased(s[i]);
      if i > 0 {
        CaseKeepsCased(s[i - 1]);
      }
    }
  }

  /** The slug title has no slash and no hyphen. */
  lemma SlugTitleSeparators(path: string)
    ensures '/' !in SlugTitle(path) && '-' !in SlugTitle(path)
  {
    var segment := LastSegment(StripChar(path, '/'));
    var words := ReplaceChar(segment, '-', ' ');
    assert forall i | 0 <= i < |words| :: words[i] != '/' && words[i] != '-' by {
      forall i | 0 <= i < |words|
        ensures words[i] != '/' && words[i] != '-'
      {
        assert segment[i] != '/' by {
          assert segment[i] in segment;
        }
      }
    }
    var t := TitleCase(words);
    forall i | 0 <= i < |t|
      ensures t[i] != '/' && t[i] != '-'
    {
      assert t[i] == LowerChar(words[i]) || t[i] == UpperChar(words[i]);
    }
  }

  /** Title-casing the slug title again changes nothing. */
  lemma SlugTitleStable(path: string)
    ensures TitleCase(SlugTitle(path)) == SlugTitle(path)
  {
    TitleCaseIdempotent(ReplaceChar(LastSegment(StripChar(path, '/')), '-', ' '));
  }

  /** What the adapter puts in place of a title it cannot rebuild. */
  const TitleGenerationFailed := "Title Generation Failed"

  /** The answer to a detail request: an error, or a page with the text
      of its heading and of its content when present. */
  type DetailResponse = Scraping.DetailResponse

  /** `scrape_opportunity_details`: an error yields nothing; a page always
      yields a record. Its title is the heading, or else the slug title of
      the URL's path, or else (when the URL cannot be split) a fixed
      text. `pathOf` is `urlsplit(url).path`, None where it raises. */
  function Details(url: string, response: DetailResponse, pathOf: string -> Option<string>): (r: Option<RawRecord>)
    ensures r.Some? <==> response.DetailPage?
    ensures r.Some? ==> r.value.link == url && r.value.source == SourceName
    ensures r.Some? ==> r.value.fullText == if response.content.Some? then response.content.value else ""
    ensures r.Some? && response.heading.Some? ==> r.value.title == response.heading.value
    ensures r.Some? && response.heading.None? && pathOf(url).Some? ==> r.value.title == SlugTitle(pathOf(url).value)
    ensures r.Some? && response.heading.None? && pathOf(url).None? ==> r.value.title == TitleGenerationFailed
  {
    match response
    case DetailFailed => None
    case DetailPage(heading, content) =>
      var title :=
        if heading.Some? then heading.value
        else if pathOf(url).Some? then SlugTitle(pathOf(url).value)
        else TitleGenerationFailed;
      Some(RawRecord(title, url, SourceName, if content.Some? then content.value else ""))
  }

  // ---------------------------------------------------------------------
  // The retry session
  // ---------------------------------------------------------------------

  /** The keyword parameters of `create_retry_session` (utils.py). */
  const RetrySessionParameters: seq<string> := ["retries", "backoff_factor", "status_forcelist", "session"]

  /** A call to `create_retry_session` with the given keyword arguments:
      Python raises TypeError for a keyword the function does not
      declare, before anything else happens. */
  predicate SessionCreated(keywords: seq<string>) {
    forall k | 0 <= k < |keywords| :: keywords[k] in RetrySessionParameters
  }

  /** The keyword od_scraper.py passes. */
  const ProxyKeyword := "use_proxy"

  lemma ProxyKeywordUndeclared()
    ensures !SessionCreated([ProxyKeyword])
  {
    forall x | x in RetrySessionParameters
      ensures x != ProxyKeyword
    {
      assert x[0] != ProxyKeyword[0];
    }
    assert [ProxyKeyword][0] == ProxyKeyword;
  }

  // ---------------------------------------------------------------------
  // The adapter
  // ---------------------------------------------------------------------

  /** The site: listing answers by URL, how many numbered pages it has,
      detail answers by URL, and the URL splitter. */
  datatype OdSite = OdSite(
    listing: string -> ListingResponse,
    lastPage: nat,
    detail: string -> DetailResponse,
    pathOf: string -> Option<string>)

  function Adapter(site: OdSite, clock: Clock): Site {
    Site((n: nat) => ListingStep(site.listing(PageUrl(n))), site.lastPage,
         clock.parse,
         (url: string) => Details(url, site.detail(url), site.pathOf))
  }

  /** `scrape_od` as written: it asks for a session with the keyword
      `use_proxy`, which `create_retry_session` does not declare, so the
      call raises before any request. */
  function ScrapeOdAsWritten(site: OdSite, clock: Clock): Scraper {
    existing =>
      if SessionCreated([ProxyKeyword])
      then SiteRecords(Adapter(site, clock), Cutoff(clock), existing, ScraperTestLimit)
      else Raised
  }

  /** As written, the adapter raises whatever the site and the stored
      links: Opportunity Desk never contributes a record. */
  lemma AsWrittenAlwaysRaises(site: OdSite, clock: Clock, existing: set<string>)
    ensures ScrapeOdAsWritten(site, clock)(existing) == Raised
  {
    ProxyKeywordUndeclared();
  }

  /** `scrape_od` with a session the helper can create (no keyword): it
      raises only when a post's date makes the parser raise. */
  function ScrapeOd(site: OdSite, clock: Clock): Scraper {
    existing =>
      if SessionCreated([])
      then SiteRecords(Adapter(site, clock), Cutoff(clock), existing, ScraperTestLimit)
      else Raised
  }

  /** The corrected adapter raises exactly when its crawl does; otherwise
      every record names this site and comes from a new link. */
  lemma RecordsShape(site: OdSite, clock: Clock, existing: set<string>)
    ensures ScrapeOd(site, clock)(existing).Raised? <==> SiteCrawl(Adapter(site, clock), Cutoff(clock)).Raised?
    ensures ScrapeOd(site, clock)(existing).Normal? ==>
      forall r | r in ScrapeOd(site, clock)(existing).value :: r.source == SourceName && r.link !in existing
  {
    var adapter := Adapter(site, clock);
    assert KeepsLink(adapter.detail) by {
      forall url | adapter.detail(url).Some?
        ensures adapter.detail(url).value.link == url
      {
        assert adapter.detail(url) == Details(url, site.detail(url), site.pathOf);
      }
    }
    SiteRecordsAreNew(adapter, Cutoff(clock), existing, ScraperTestLimit);
    var outcome := SiteRecords(adapter, Cutoff(clock), existing, ScraperTestLimit);
    if outcome.Normal? {
      var links := LinksToScrape(SiteCrawl(adapter, Cutoff(clock)).value, existing, ScraperTestLimit);
      forall r | r in outcome.value
        ensures r.source == SourceName
      {
        CollectedMembers(links, adapter.detail, r);
        var k :| 0 <= k < |links| && adapter.detail(links[k]) == Some(r);
      }
    }
  }

  /** `scrape_od`, corrected: crawl the numbered pages, filter, limit,
      collect. Returns the outcome and the URLs of the listing requests:
      the base URL, then `page/2/`, `page/3/`, ... up to the last page
      requested, every one before it collected. */
  method RunScrapeOd(site: OdSite, clock: Clock, existing: set<string>)
    returns (records: Completion<seq<RawRecord>>, urls: seq<string>)
    ensures ScrapeOd(site, clock)(existing) == records
    ensures |urls| >= 1 && urls[0] == BaseUrl
    ensures forall i | 1 <= i < |urls| :: urls[i] == BaseUrl + "page/" + NatToString(i + 1) + "/"
    ensures forall i | 0 <= i < |urls| - 1 :: ListingStep(site.listing(urls[i])).Collect?
  {
    var requested;
    records, requested := ScrapeSite(Adapter(site, clock), Cutoff(clock), existing, ScraperTestLimit);
    urls := seq(requested, i requires 0 <= i < requested => PageUrl(i + 1));
    forall i | 0 <= i < |urls| - 1
      ensures ListingStep(site.listing(urls[i])).Collect?
    {
      assert !Stops(PageStep(Adapter(site, clock).fetch, site.lastPage, i + 1));
    }
  }
}
