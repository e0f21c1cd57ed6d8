/** The Global South Opportunities adapter (gso_scraper.py): a listing
    that is followed through its next-page links, publication dates that
    may be relative ("14 hours ago") or absolute, and detail pages that
    must carry a title. */
module Gso {
  import opened Common
  import opened Records
  import opened Scraping

  const SourceName := "Global South Opportunities"

  // ---------------------------------------------------------------------
  // Relative dates
  // ---------------------------------------------------------------------

  datatype Unit = Hour | Day | Week | Month

  function UnitName(u: Unit): string {
    match u
    case Hour => "hour"
    case Day => "day"
    case Week => "week"
    case Month => "month"
  }

  /** Seconds in one unit; a month has no fixed length and is counted by
      the calendar instead. */
  function UnitSeconds(u: Unit): nat
    requires u != Month
  {
    match u
    case Hour => 3600
    case Day => 86400
    case Week => 604800
  }

  /** The unit word `s` starts with, if any. */
  function UnitAt(s: string): (r: Option<Unit>)
    ensures r.Some? ==> UnitName(r.value) <= s
  {
    if "hour" <= s then Some(Hour)
    else if "day" <= s then Some(Day)
    else if "week" <= s then Some(Week)
    else if "month" <= s then Some(Month)
    else None
  }

  /** `\s+ago` at the start of `s`. */
  predicate MatchAgo(s: string) {
    var gap := RunEnd(s, 0, IsSpace);
    gap > 0 && "ago" <= s[gap..]
  }

  /** `(hour|day|week|month)s?\s+ago` at the start of `s`, giving the
      unit. The optional "s" is taken when present: without it the
      following `\s` would have to match the "s" itself. */
  function MatchUnitAgo(s: string): Option<Unit> {
    match UnitAt(s)
    case None => None
    case Some(unit) =>
      var afterUnit := s[|UnitName(unit)|..];
      var afterPlural := if afterUnit != [] && afterUnit[0] == 's' then afterUnit[1..] else afterUnit;
      if MatchAgo(afterPlural) then Some(unit) else None
  }

  /** The pattern `(\d+)\s+(hour|day|week|month)s?\s+ago` matched at the
      start of `s` (and only there; anything may follow "ago"), giving the
      quantity and the unit. Each run of digits or spaces is maximal,
      since the character after it can never continue it. */
  function MatchRelative(s: string): Option<(nat, Unit)> {
    var digits := RunEnd(s, 0, IsDigit);
    var afterDigits := s[digits..];
    var gap := RunEnd(afterDigits, 0, IsSpace);
    if digits == 0 || gap == 0 then None
    else match MatchUnitAgo(afterDigits[gap..])
      case None => None
      case Some(unit) => Some((DecimalValue(s[..digits]), unit))
  }

  /** The earliest moment a `datetime` holds, 0001-01-01 00:00 UTC, in
      seconds since the epoch. */
  const MinTime: int := -62135596800

  /** A `timedelta` holds fewer than 10^9 days: this many seconds is too
      many. */
  const TimedeltaLimit: nat := 86400000000000

  /** The moment `quantity` units before now: hours, days and weeks by
      their length in seconds, months by the calendar. A `timedelta` too
      large to build, or a moment before year 1, raises OverflowError,
      which `parse_flexible_date` does not catch. */
  function Ago(clock: Clock, quantity: nat, unit: Unit): (r: Completion<Option<int>>)
    ensures r.Normal? ==> r.value.Some?
    ensures unit == Month ==> r == Normal(Some(clock.monthsBefore(clock.now, quantity)))
    ensures unit != Month ==>
      (r.Raised? <==> quantity * UnitSeconds(unit) >= TimedeltaLimit || clock.now - quantity * UnitSeconds(unit) < MinTime)
    ensures unit != Month && r.Normal? ==> MinTime <= r.value.value == clock.now - quantity * UnitSeconds(unit)
  {
    if unit == Month then Normal(Some(clock.monthsBefore(clock.now, quantity)))
    else
      var span := quantity * UnitSeconds(unit);
      if span >= TimedeltaLimit || clock.now - span < MinTime then Raised
      else Normal(Some(clock.now - span))
  }

  /** `parse_flexible_date` after lower-casing and stripping: a relative
      date counts back from now; anything else goes to the general date
      parser. */
  function ParseNormalised(s: string, clock: Clock): Completion<Option<int>> {
    match MatchRelative(s)
    case Some((quantity, unit)) => Ago(clock, quantity, unit)
    case None => clock.parse(s)
  }

  /** `parse_flexible_date`: lower-case and strip, then read. */
  function ParseFlexibleDate(text: string, clock: Clock): Completion<Option<int>> {
    ParseNormalised(Strip(ToLower(text)), clock)
  }

  /** The text of a relative date as the site writes it. */
  function RelativeText(quantity: nat, unit: Unit, plural: bool): string {
    NatToString(quantity) + " " + UnitName(unit) + (if plural then "s" else "") + " ago"
  }

  /** A run that stops where the predicate first fails is the leading
      run. */
  lemma LeadingRunExact(s: string, p: char -> bool, n: nat)
    requires n <= |s| && (forall i | 0 <= i < n :: p(s[i])) && (n < |s| ==> !p(s[n]))
    ensures RunEnd(s, 0, p) == n
  {
  }

  /** Each unit word is recognised as itself, whatever follows it. */
  lemma UnitAtName(unit: Unit, rest: string)
    ensures UnitAt(UnitName(unit) + rest) == Some(unit)
  {
    var s := UnitName(unit) + rest;
    assert s[0] == UnitName(unit)[0];
  }

  /** The digits before the first space are the whole quantity. */
  lemma QuantityRun(digits: string, rest: string)
    requires AllDigits(digits) && rest != [] && rest[0] == ' '
    ensures RunEnd(digits + rest, 0, IsDigit) == |digits|
    ensures (digits + rest)[|digits|..] == rest && (digits + rest)[..|digits|] == digits
  {
    LeadingRunExact(digits + rest, IsDigit, |digits|);
  }

  /** A single space before a word is the whole gap. */
  lemma SpaceRun(rest: string)
    requires rest == [] || !IsSpace(rest[0])
    ensures RunEnd(" " + rest, 0, IsSpace) == 1 && (" " + rest)[1..] == rest
  {
    LeadingRunExact(" " + rest, IsSpace, 1);
  }

  /** A space and "ago" match `\s+ago`, whatever follows. */
  lemma AgoRecognised(tail: string)
    ensures MatchAgo(" ago" + tail)
  {
    SpaceRun("ago" + tail);
    assert (" ago" + tail)[1..] == "ago" + tail;
    assert "ago" <= "ago" + tail;
  }

  /** The unit part of a relative date is recognised whatever follows
      "ago". */
  lemma UnitAgoRecognised(unit: Unit, plural: bool, tail: string)
    ensures MatchUnitAgo(UnitName(unit) + (if plural then "s" else "") + " ago" + tail) == Some(unit)
  {
    var afterPlural := " ago" + tail;
    var afterUnit := (if plural then "s" else "") + afterPlural;
    var atUnit := UnitName(unit) + afterUnit;
    ConcatRightGrouped(UnitName(unit), if plural then "s" else "", " ago", tail, []);
    UnitAtName(unit, afterUnit);
    assert atUnit[|UnitName(unit)|..] == afterUnit;
    if plural {
      assert afterUnit[0] == 's' && afterUnit[1..] == afterPlural;
    } else {
      assert afterUnit == afterPlural && afterUnit[0] == ' ';
    }
    AgoRecognised(tail);
  }

  /** A relative date is recognised whatever follows "ago", and counts
      back the stated quantity of its unit from now. */
  lemma {:induction false} RelativeDateRecognised(quantity: nat, unit: Unit, plural: bool, tail: string)
    ensures MatchRelative(RelativeText(quantity, unit, plural) + tail) == Some((quantity, unit))
  {
    var digits := NatToString(quantity);
    var atUnit := UnitName(unit) + (if plural then "s" else "") + " ago" + tail;
    var s := RelativeText(quantity, unit, plural) + tail;
    assert s == digits + (" " + atUnit);
    QuantityRun(digits, " " + atUnit);
    assert atUnit[0] == UnitName(unit)[0];
    SpaceRun(atUnit);
    UnitAgoRecognised(unit, plural, tail);
    NatToStringRoundTrip(quantity);
  }

  predicate NoUpper(s: string) {
    forall i | 0 <= i < |s| :: !IsUpper(s[i])
  }

  lemma NoUpperConcat(a: string, b: string)
    requires NoUpper(a) && NoUpper(b)
    ensures NoUpper(a + b)
  {
    forall i | 0 <= i < |a + b|
      ensures !IsUpper((a + b)[i])
    {
      if i >= |a| {
        assert (a + b)[i] == b[i - |a|];
      }
    }
  }

  /** A relative date as the site writes it has no upper-case letter. */
  lemma RelativeTextLower(quantity: nat, unit: Unit, plural: bool)
    ensures NoUpper(RelativeText(quantity, unit, plural))
  {
    var digits := NatToString(quantity);
    assert NoUpper(digits);
    var word := UnitName(unit);
    assert NoUpper(word);
    var suffix := if plural then "s" else "";
    assert NoUpper(" ") && NoUpper(suffix) && NoUpper(" ago");
    NoUpperConcat(digits, " ");
    NoUpperConcat(digits + " ", word);
    NoUpperConcat(digits + " " + word, suffix);
    NoUpperConcat(digits + " " + word + suffix, " ago");
  }

  /** Lower-casing and stripping leave a relative date as it is. */
  lemma RelativeTextNormalised(quantity: nat, unit: Unit, plural: bool)
    ensures Strip(ToLower(RelativeText(quantity, unit, plural))) == RelativeText(quantity, unit, plural)
  {
    var t := RelativeText(quantity, unit, plural);
    RelativeTextLower(quantity, unit, plural);
    ToLowerNoUpper(t);
    assert t[0] == NatToString(quantity)[0];
    assert t[|t| - 1] == 'o';
    StripUnpadded(t);
  }

  /** A relative date with nothing after "ago" is recognised. */
  lemma RelativeDateMatched(quantity: nat, unit: Unit, plural: bool)
    ensures MatchRelative(RelativeText(quantity, unit, plural)) == Some((quantity, unit))
  {
    RelativeDateRecognised(quantity, unit, plural, []);
    assert RelativeText(quantity, unit, plural) + [] == RelativeText(quantity, unit, plural);
  }

  /** A normalised text that matches the pattern is read as the moment it
      names. */
  lemma ReadRelative(text: string, clock: Clock, quantity: nat, unit: Unit)
    requires Strip(ToLower(text)) == text && MatchRelative(text) == Some((quantity, unit))
    ensures ParseFlexibleDate(text, clock) == Ago(clock, quantity, unit)
  {
  }

  /** "N unit(s) ago", as the site writes it, is read as N units before
      now: hours, days and weeks by their length in seconds, months by the
      calendar; an hour, day or week count reaching beyond `timedelta` or
      before year 1 raises instead. */
  lemma RelativeDateValue(quantity: nat, unit: Unit, plural: bool, clock: Clock)
    ensures ParseFlexibleDate(RelativeText(quantity, unit, plural), clock) == Ago(clock, quantity, unit)
  {
    RelativeTextNormalised(quantity, unit, plural);
    RelativeDateMatched(quantity, unit, plural);
    ReadRelative(RelativeText(quantity, unit, plural), clock, quantity, unit);
  }

  /** The pattern is anchored at the start: a text that, once lower-cased
      and stripped, does not begin with a digit goes to the general
      parser. */
  lemma AbsoluteDateParsed(text: string, clock: Clock)
    requires var s := Strip(ToLower(text)); s == [] || !IsDigit(s[0])
    ensures ParseFlexibleDate(text, clock) == clock.parse(Strip(ToLower(text)))
  {
  }

  // ---------------------------------------------------------------------
  // Listing pages
  // ---------------------------------------------------------------------

  /** The answer to a listing request: an error, or a page with the posts
      of its `ul#posts-container` (None when the container is missing)
      and the `href` of its `span.last-page > a` link. */
  datatype ListingResponse = ListingFailed | Listing(container: Option<seq<Post>>, nextHref: Option<string>)

  /** An error, a missing container or an empty one ends the crawl; a
      page is followed by another only when it has a non-empty next
      link. */
  function ListingStep(response: ListingResponse): (step: Step)
    ensures step.Collect? <==> response.Listing? && response.container.Some? && response.container.value != []
    ensures step.Collect? ==> step.posts == response.container.value
    ensures step.Collect? ==> (step.more <==> response.nextHref.Some? && response.nextHref.value != "")
  {
    match response
    case ListingFailed => Halt
    case Listing(container, nextHref) =>
      if container.None? || container.value == [] then Halt
      else Collect(container.value, nextHref.Some? && nextHref.value != "")
  }

  /** The site: its listing pages in the order the next links visit them
      (page 1 is the funding category), and its detail pages by URL. */
  datatype GsoSite = GsoSite(listing: nat -> ListingResponse, lastPage: nat, detail: string -> DetailResponse)

  function Adapter(site: GsoSite, clock: Clock): Site {
    Site((n: nat) => ListingStep(site.listing(n)), site.lastPage,
         (text: string) => ParseFlexibleDate(text, clock),
         (url: string) => TitledDetails(url, site.detail(url), SourceName))
  }

  /** `scrape_gso` as the collector calls it: it raises when a post's
      date makes the date reader raise. */
  function ScrapeGso(site: GsoSite, clock: Clock): Scraper {
    existing => SiteRecords(Adapter(site, clock), Cutoff(clock), existing, ScraperTestLimit)
  }

  /** `scrape_gso`: crawl, filter, limit, collect. */
  method RunScrapeGso(site: GsoSite, clock: Clock, existing: set<string>) returns (records: Completion<seq<RawRecord>>)
    ensures ScrapeGso(site, clock)(existing) == records
    ensures records.Normal? ==>
      forall r | r in records.value :: r.source == SourceName && r.title != TitleNotFound && r.link !in existing
  {
    var pages;
    records, pages := ScrapeSite(Adapter(site, clock), Cutoff(clock), existing, ScraperTestLimit);
    RecordsShape(site, clock, existing);
  }

  /** The adapter raises exactly when its crawl does; otherwise every
      record comes from a titled detail page of a new link and names this
      site as its source. */
  lemma RecordsShape(site: GsoSite, clock: Clock, existing: set<string>)
    ensures ScrapeGso(site, clock)(existing).Raised? <==> SiteCrawl(Adapter(site, clock), Cutoff(clock)).Raised?
    ensures ScrapeGso(site, clock)(existing).Normal? ==>
      forall r | r in ScrapeGso(site, clock)(existing).value ::
        r.source == SourceName && r.title != TitleNotFound && r.link !in existing
  {
    var adapter := Adapter(site, clock);
    assert KeepsLink(adapter.detail) by {
      forall url | adapter.detail(url).Some?
        ensures adapter.detail(url).value.link == url
      {
        assert adapter.detail(url) == TitledDetails(url, site.detail(url), SourceName);
      }
    }
    SiteRecordsAreNew(adapter, Cutoff(clock), existing, ScraperTestLimit);
    var outcome := SiteRecords(adapter, Cutoff(clock), existing, ScraperTestLimit);
    if outcome.Normal? {
      var links := LinksToScrape(SiteCrawl(adapter, Cutoff(clock)).value, existing, ScraperTestLimit);
      forall r | r in outcome.value
        ensures r.source == SourceName && r.title != TitleNotFound
      {
        CollectedMembers(links, adapter.detail, r);
        var k :| 0 <= k < |links| && adapter.detail(links[k]) == Some(r);
      }
    }
  }
}
