/** The Opportunities For Youth adapter (ofy_scraper.py): a security
    nonce read from the grants page, listing pages fetched by an AJAX call
    whose `to_page` field counts up from "1", dates written with '+' for
    spaces, and detail pages that must carry a title. */
module Ofy {
  import opened Common
  import opened Records
  import opened Scraping

  const SourceName := "Opportunities For Youth"

  // ---------------------------------------------------------------------
  // The nonce
  // ---------------------------------------------------------------------

  /** The text that precedes the nonce in the page's script. */
  const NonceMarker := "\"blog_feed_nonce\":\""

  /** The first index at or after `j` holding a quote or a line break, or
      the end of `s`. */
  function StopAt(s: string, j: nat): (k: nat)
    requires j <= |s|
    ensures j <= k <= |s|
    ensures forall m | j <= m < k :: s[m] != '"' && s[m] != '\n'
    ensures k < |s| ==> s[k] == '"' || s[k] == '\n'
    decreases |s| - j
  {
    if j == |s| || s[j] == '"' || s[j] == '\n' then j else StopAt(s, j + 1)
  }

  /** The scan stops at the first quote or line break. */
  lemma {:induction false} StopAtFirst(s: string, j: nat, k: nat)
    requires j <= k < |s| && (s[k] == '"' || s[k] == '\n')
    requires forall m | j <= m < k :: s[m] != '"' && s[m] != '\n'
    ensures StopAt(s, j) == k
    decreases k - j
  {
    if j < k {
      StopAtFirst(s, j + 1, k);
    }
  }

  /** The match of `"blog_feed_nonce":"(.*?)"` starting at `i`, if there
      is one: the marker, then the shortest run of characters other than
      a line break that is followed by a quote. */
  function NonceAt(s: string, i: nat): Option<string> {
    if !OccursAt(s, NonceMarker, i) then None
    else
      var k := StopAt(s, i + |NonceMarker|);
      if k < |s| && s[k] == '"' then Some(s[i + |NonceMarker|..k]) else None
  }

  /** `re.search` from index `i` on: the leftmost index where the pattern
      matches. */
  function SearchNonce(s: string, i: nat): Option<string>
    decreases |s| - i
  {
    if i > |s| then None
    else if NonceAt(s, i).Some? then NonceAt(s, i)
    else SearchNonce(s, i + 1)
  }

  /** The nonce of `get_fresh_nonce`, read from the page text. */
  function ExtractNonce(page: string): Option<string> {
    SearchNonce(page, 0)
  }

  /** A nonce is a run without quote or line break that the page holds
      between the marker and a closing quote. */
  predicate NonceIn(s: string, nonce: string) {
    && '"' !in nonce && '\n' !in nonce
    && Contains(s, NonceMarker + nonce + "\"")
  }

  lemma NonceAtSound(s: string, i: nat)
    requires NonceAt(s, i).Some?
    ensures NonceIn(s, NonceAt(s, i).value)
  {
    var j := i + |NonceMarker|;
    var k := StopAt(s, j);
    var nonce := s[j..k];
    assert forall m | 0 <= m < |nonce| :: nonce[m] == s[j + m];
    assert s[i..k + 1] == NonceMarker + nonce + "\"";
    ContainsAt(s, NonceMarker + nonce + "\"", i);
  }

  /** A found nonce really is between the marker and a quote, without a
      line break. */
  lemma {:induction false} ExtractNonceSound(s: string, i: nat)
    requires SearchNonce(s, i).Some?
    ensures NonceIn(s, SearchNonce(s, i).value)
    decreases |s| - i
  {
    if NonceAt(s, i).Some? {
      NonceAtSound(s, i);
    } else {
      ExtractNonceSound(s, i + 1);
    }
  }

  /** An occurrence of the marker followed by a quote-free, line-free run
      and a quote is a match at that index. */
  lemma NonceAtComplete(s: string, nonce: string, i: nat)
    requires '"' !in nonce && '\n' !in nonce
    requires OccursAt(s, NonceMarker + nonce + "\"", i)
    ensures NonceAt(s, i) == Some(nonce)
  {
    var whole := NonceMarker + nonce + "\"";
    var j := i + |NonceMarker|;
    assert s[i..i + |whole|] == whole;
    assert s[i..j] == NonceMarker by {
      assert s[i..j] == whole[..|NonceMarker|];
    }
    forall m | j <= m < j + |nonce|
      ensures s[m] != '"' && s[m] != '\n'
    {
      assert s[m] == whole[m - i] == nonce[m - j];
    }
    assert s[j + |nonce|] == whole[|whole| - 1] == '"';
    StopAtFirst(s, j, j + |nonce|);
    assert s[j..j + |nonce|] == nonce by {
      forall m | 0 <= m < |nonce|
        ensures s[j..j + |nonce|][m] == nonce[m]
      {
        assert s[j + m] == whole[|NonceMarker| + m];
      }
    }
  }

  /** Whenever the page holds the marker, a quote-free and line-free run
      and a quote, some nonce is found: no match is missed. */
  lemma {:induction false} ExtractNonceComplete(s: string, nonce: string, i: nat, at: nat)
    requires '"' !in nonce && '\n' !in nonce
    requires i <= at && OccursAt(s, NonceMarker + nonce + "\"", at)
    ensures SearchNonce(s, i).Some?
    decreases |s| - i
  {
    if NonceAt(s, i).None? {
      if i == at {
        NonceAtComplete(s, nonce, at);
      } else {
        ExtractNonceComplete(s, nonce, i + 1, at);
      }
    }
  }

  /** A page whose script begins with the marker gives back the nonce
      written after it. */
  lemma NonceRoundTrip(nonce: string, rest: string)
    requires '"' !in nonce && '\n' !in nonce
    ensures ExtractNonce(NonceMarker + nonce + "\"" + rest) == Some(nonce)
  {
    var s := NonceMarker + nonce + "\"" + rest;
    var whole := NonceMarker + nonce + "\"";
    assert s[0..|whole|] == whole;
    NonceAtComplete(s, nonce, 0);
  }

  // ---------------------------------------------------------------------
  // Listing pages
  // ---------------------------------------------------------------------

  /** The `to_page` field of the request for page `n`: `str(n)`. */
  function ToPage(n: nat): string {
    NatToString(n)
  }

  /** Distinct pages send distinct `to_page` values. */
  lemma ToPageInjective(n: nat, m: nat)
    requires ToPage(n) == ToPage(m)
    ensures n == m
  {
    NatToStringRoundTrip(n);
    NatToStringRoundTrip(m);
  }

  /** The answer to a listing request: an error, or a body with the posts
      of its `article` elements. */
  datatype ListingResponse = ListingFailed | Body(text: string, articles: seq<Post>)

  /** An error, a blank body or a body without articles ends the crawl;
      any other page is followed by the next page number. */
  function ListingStep(response: ListingResponse): (step: Step)
    ensures step.Collect? <==> response.Body? && Strip(response.text) != [] && response.articles != []
    ensures step.Collect? ==> step.posts == response.articles && step.more
  {
    match response
    case ListingFailed => Halt
    case Body(text, articles) =>
      if Strip(text) == [] then Halt
      else if articles == [] then Halt
      else Collect(articles, true)
  }

  /** The date text with every '+' read as a space, then parsed. */
  function PostDate(text: string, clock: Clock): Completion<Option<int>> {
    clock.parse(ReplaceChar(text, '+', ' '))
  }

  // ---------------------------------------------------------------------
  // The adapter
  // ---------------------------------------------------------------------

  /** The site: the grants page text (None when fetching it fails),
      listing answers by (nonce, `to_page`), how many pages there are, and
      detail answers by URL. */
  datatype OfySite = OfySite(
    grantsPage: Option<string>,
    listing: (string, string) -> ListingResponse,
    lastPage: nat,
    detail: string -> DetailResponse)

  /** The nonce of `get_fresh_nonce`: None when the page cannot be fetched
      or holds no match. */
  function FreshNonce(site: OfySite): Option<string> {
    if site.grantsPage.None? then None else ExtractNonce(site.grantsPage.value)
  }

  function Adapter(site: OfySite, nonce: string, clock: Clock): Site {
    Site((n: nat) => ListingStep(site.listing(nonce, ToPage(n))), site.lastPage,
         (text: string) => PostDate(text, clock),
         (url: string) => TitledDetails(url, site.detail(url), SourceName))
  }

  /** A post of the listing is kept exactly when it has a non-empty link
      and a date whose text, with every '+' read as a space, parses to a
      moment no earlier than the cutoff; it makes the crawl raise exactly
      when that parse raises. */
  lemma PostKept(site: OfySite, nonce: string, clock: Clock, post: Post)
    ensures var dateOf := Adapter(site, nonce, clock).dateOf;
      && (IsRecent(post, dateOf, Cutoff(clock)) <==>
            && Dated(post)
            && clock.parse(ReplaceChar(post.dateText.value, '+', ' ')).Normal?
            && clock.parse(ReplaceChar(post.dateText.value, '+', ' ')).value.Some?
            && clock.parse(ReplaceChar(post.dateText.value, '+', ' ')).value.value >= Cutoff(clock))
      && (DateRaises(post, dateOf) <==> Dated(post) && clock.parse(ReplaceChar(post.dateText.value, '+', ' ')).Raised?)
  {
  }

  /** `scrape_ofy`: with no nonce, or an empty one, nothing is scraped;
      otherwise crawl, filter, limit and collect, raising when a post's
      date makes the parser raise. */
  function ScrapeOfy(site: OfySite, clock: Clock): Scraper {
    existing =>
      var nonce := FreshNonce(site);
      if nonce.None? || nonce.value == [] then Normal([])
      else SiteRecords(Adapter(site, nonce.value, clock), Cutoff(clock), existing, ScraperTestLimit)
  }

  /** Without a usable nonce no request beyond the grants page is made and
      the adapter returns no record; with one, it raises exactly when its
      crawl does, and otherwise every record names this site, has a title
      and comes from a new link. */
  lemma RecordsShape(site: OfySite, clock: Clock, existing: set<string>)
    ensures FreshNonce(site).None? || FreshNonce(site).value == [] ==> ScrapeOfy(site, clock)(existing) == Normal([])
    ensures FreshNonce(site).Some? && FreshNonce(site).value != [] ==>
      (ScrapeOfy(site, clock)(existing).Raised? <==> SiteCrawl(Adapter(site, FreshNonce(site).value, clock), Cutoff(clock)).Raised?)
    ensures ScrapeOfy(site, clock)(existing).Normal? ==>
      forall r | r in ScrapeOfy(site, clock)(existing).value ::
        r.source == SourceName && r.title != TitleNotFound && r.link !in existing
  {
    var nonce := FreshNonce(site);
    if nonce.Some? && nonce.value != [] {
      var adapter := Adapter(site, nonce.value, clock);
      assert KeepsLink(adapter.detail) by {
        forall url | adapter.detail(url).Some?
          ensures adapter.detail(url).value.link == url
        {
          assert adapter.detail(url) == TitledDetails(url, site.detail(url), SourceName);
        }
      }
      SiteRecordsAreNew(adapter, Cutoff(clock), existing, ScraperTestLimit);
      var outcome := SiteRecords(adapter, Cutoff(clock), existing, ScraperTestLimit);
      if outcome.Normal? {
        var links := LinksToScrape(SiteCrawl(adapter, Cutoff(clock)).value, existing, ScraperTestLimit);
        forall r | r in outcome.value
          ensures r.source == SourceName && r.title != TitleNotFound
        {
          CollectedMembers(links, adapter.detail, r);
          var k :| 0 <= k < |links| && adapter.detail(links[k]) == Some(r);
        }
      }
    }
  }

  /** `scrape_ofy`: fetch the nonce and stop early without one; otherwise
      crawl the listing from `to_page` "1" on. Returns the outcome and the
      `to_page` values sent. */
  method RunScrapeOfy(site: OfySite, clock: Clock, existing: set<string>)
    returns (records: Completion<seq<RawRecord>>, toPages: seq<string>)
    ensures ScrapeOfy(site, clock)(existing) == records
    ensures FreshNonce(site).None? || FreshNonce(site).value == [] ==> records == Normal([]) && toPages == []
    ensures forall i | 0 <= i < |toPages| :: toPages[i] == NatToString(i + 1)
  {
    var nonce := FreshNonce(site);
    if nonce.None? || nonce.value == [] {
      return Normal([]), [];
    }
    var requested;
    records, requested := ScrapeSite(Adapter(site, nonce.value, clock), Cutoff(clock), existing, ScraperTestLimit);
    toPages := seq(requested, i requires 0 <= i < requested => ToPage(i + 1));
  }
}
