# Funding-opportunity aggregator: a Dafny model of its pipeline

The aggregator runs in three stages.

- **Maintenance** sweeps expired and stale postings out of the processed table.
- **Collector** runs three site adapters (Global South Opportunities, Opportunities For Youth, Opportunity Desk). Each adapter crawls listing pages, keeps the links of posts published within the last twelve months, drops links already stored, and fetches each remaining detail page. The collector merges the adapters' records, de-duplicates them by link, and upserts them into the raw table as "pending analysis".
- **Processor** reads the pending rows, asks a language model for each posting's geographic scope, and applies a fixed relevance rule for Ethiopia. It enriches relevant postings (focus areas, funding, funder, deadline, summary), stores the accepted ones, and commits every row's new status in one bulk update.

The model follows that structure, one module per source file.

- `Common`, `Records`, `Dates`: strings as Python sees them (ASCII lower-casing, `strip`, substring tests), decimal numerals, the JSON values the pipeline reads, and `YYYY-MM-DD` dates.
- `Relevance`: `is_relevant_for_ethiopia` and `validate_and_clean_deadline`.
- `AiAnalyzer`: the retry helper with its rate-limit hint, the `{...}` extraction, and the two model tasks.
- `Store`: the database client as a class `Database`. It holds the raw table, the processed table and a log of the write requests that reached the service.
- `Pipeline`: the worker, the processor and collector stages, the maintenance stage and the whole run. The thread pools become a completion order: any order in which every task finishes once.
- `Scraping`: the crawl loop, date cutoff, new-link filter, test limit and detail loop that the three adapters share.
- `Gso`, `Od`, `Ofy`: the adapters.

The following are parameters:

- the model's answers;
- `json.loads`;
- `dateutil`'s parser;
- calendar month arithmetic;
- the clock;
- the pages the sites serve;
- which requests fail.

A Python exception is the `Raised` case of `Completion`.

## Model

| member | source | states |
|---|---|---|
| Relevance.IsRelevantForEthiopia | main.py:244-269 | relevant iff Ethiopia is not excluded and is eligible, or no specific country is eligible and a broad scope is; an exclusion of Ethiopia always wins |
| Relevance.SpecificPlaceDisqualifies | main.py:261-263 | one specific country among the eligible places, without Ethiopia, makes the posting irrelevant |
| Relevance.BroadScopesOnly | main.py:256-267 | eligible places that are all broad scopes, with Ethiopia not excluded, make the posting relevant, the reason listing those scopes |
| Relevance.EastAfricaExample | ai_analyzer.py:74-78 | the prompt's own example (East Africa, excluding Somalia) is relevant through the broad scope |
| Relevance.NormalizeAll | main.py:248-249 | each location is lower-cased and stripped, position by position |
| Relevance.ValidateAndCleanDeadline | main.py:46-63 | a date comes back iff the value is a non-empty string with no non-date keyword that the parser reads; it is the ISO form of the parsed date and reads back as that date; an error the parser raises other than ValueError or TypeError propagates, and only for such a string |
| Relevance.KeywordDeadlinesHaveNoDate | main.py:54-56 | "Rolling", "Not Specified" and "N/A", in any case, never give a date |
| Dates.FormatParseRoundTrip | main.py:217-218 | `strptime` of the `strftime` text gives back the date |
| Dates.FormatIso | main.py:60 | `%Y-%m-%d` text: ten characters with dashes at positions 4 and 7 |
| Dates.ParseIso | main.py:218 | only text of that shape reads as a date |
| Dates.FormatOrder | database_manager.py:161-165 | text order of formatted dates is date order, so the expiry sweep's string comparison compares dates |
| AiAnalyzer.CallWithRetry | ai_analyzer.py:25-53 | the loop returns the text and, per attempt, the sleeps that the retry specification gives |
| AiAnalyzer.RetryOutcome | ai_analyzer.py:30-53 | the text is None iff every remaining attempt fails, with one group of sleeps per attempt; otherwise it is the first reply, and every earlier attempt failed |
| AiAnalyzer.RetrySchedule | ai_analyzer.py:30-50 | a reply sleeps one second; a call that raises sleeps for the hint plus one when the message is a rate limit carrying one, else for the base delay doubled once per earlier hint-less rate limit; a reply whose text raises sleeps one second and then that wait |
| AiAnalyzer.PausesAt | ai_analyzer.py:30-50 | the sleeps of attempt k: one second for a reply, otherwise the failure's sleeps with the delay in force at that attempt |
| AiAnalyzer.DelayAtDoubles | ai_analyzer.py:45-47 | the delay in force at attempt k is the starting delay doubled once per earlier hint-less rate limit |
| AiAnalyzer.DoublingBackoff | ai_analyzer.py:45-47 | when every call raises a rate limit without a hint, there is one sleep per attempt and the k-th is the base delay times 2^k |
| AiAnalyzer.HintLeftmost | ai_analyzer.py:39 | `re.search` takes the leftmost place where the hint pattern matches |
| AiAnalyzer.HintAbsent | ai_analyzer.py:39-40 | with no match at any position, there is no hint |
| AiAnalyzer.HintRoundTrip | ai_analyzer.py:39-41 | a message carrying `retry_delay { seconds: n }`, with any spacing, gives back n |
| AiAnalyzer.JsonSpan | ai_analyzer.py:92 | a span is found iff the reply has a `{` before a `}`; the span starts with `{` and ends with `}` |
| AiAnalyzer.JsonSpanOfWrapped | ai_analyzer.py:92-95 | an object surrounded by text without braces is extracted exactly |
| AiAnalyzer.Snippet | ai_analyzer.py:63 | the first n characters, or the whole text when shorter |
| AiAnalyzer.GeoFromReply | ai_analyzer.py:90-106 | the result always has both keys; it is the decoded object or the empty default, and the decoded object when that has both keys |
| AiAnalyzer.GeographicScope | ai_analyzer.py:55-60 | without a model: the empty default; always both keys |
| AiAnalyzer.GetGeographicScope | ai_analyzer.py:55-106 | the method computes the geographic-scope function |
| AiAnalyzer.GeographySeesSnippetOnly | ai_analyzer.py:63 | texts that agree on the first 3000 characters get the same answer |
| AiAnalyzer.TruncateFocusAreas | ai_analyzer.py:146-147 | keys and other values are unchanged; a string or list of focus areas keeps its first three items; it raises iff the value is a scalar or an object of more than three keys (`len` then slicing) |
| AiAnalyzer.TruncateIdempotent | ai_analyzer.py:146-147 | trimming a trimmed object changes nothing |
| AiAnalyzer.EnrichmentFromReply | ai_analyzer.py:138-159 | no reply gives the "call failed" sentinel, no span the "no JSON object" one, an undecodable span the "malformed" one; a decoded object is trimmed |
| AiAnalyzer.Enrichment | ai_analyzer.py:109-112 | without a model: the fixed "not configured" answer |
| AiAnalyzer.GetEnrichmentData | ai_analyzer.py:109-159 | the method computes the enrichment function |
| AiAnalyzer.EnrichmentSeesSnippetOnly | ai_analyzer.py:115 | texts that agree on the first 4000 characters get the same answer |
| Store.LinkSet | database_manager.py:55-56 | exactly the links of the rows |
| Store.RawIndex | database_manager.py:28 | the row holding a link, found iff the table has that link |
| Store.PageLinks | database_manager.py:55-56 | the loop over one page adds exactly that page's links |
| Store.ScanStep | database_manager.py:49-58 | the links read through page n+1 are those through page n plus page n+1's |
| Store.UpsertRawRowsLinks | database_manager.py:28 | the upsert adds the batch's links and keeps links unique |
| Store.UpsertRawRowsStatus | database_manager.py:13-28 | the upsert changes no status: a stored link keeps its own, a new one is pending |
| Store.PageWithinCount | database_manager.py:49-53 | a scan page is non-empty iff it comes before the page count |
| Store.PageRangesTile | database_manager.py:50 | each requested range holds 1000 rows and starts where the previous one ended |
| Store.ScannedLinksSubset | database_manager.py:63-67 | a failed scan returns part of the table's links, never others; a clean scan returns them all |
| Store.PendingRows | database_manager.py:78 | exactly the pending rows, in table order |
| Store.PendingRowsUnique | database_manager.py:78-81 | the pending rows have unique links |
| Store.SetStatus | database_manager.py:128 | one entry sets the status of the rows with its link and touches nothing else |
| Store.ApplyStatusUpdatesEffect | database_manager.py:107-128 | every row keeps its record; its status is that of its link's last entry in the batch, if any |
| Store.UpsertProcessedRow | database_manager.py:145 | a new link is appended with the write time; with unique links, the row holding the link takes the new record and keeps its time and every other row is unchanged; unique links stay unique |
| Store.WithoutExpired | database_manager.py:165 | exactly the rows that are not expired, in order |
| Store.WithoutStale | database_manager.py:193-201 | exactly the rows that are not stale, in order |
| Store.ExpirySweepIdempotent | database_manager.py:152-165 | a second sweep on the same day deletes nothing |
| Store.StaleSweepIdempotent | database_manager.py:178-201 | a second stale sweep with the same cutoff deletes nothing |
| Store.ExpiredIffBefore | database_manager.py:161-165 | a row expires exactly when its deadline is before today |
| Store.RollingNeverStale | database_manager.py:193-200 | a "Rolling" deadline is never stale |
| Store.Database.constructor | database_manager.py:11 | the client starts with the given tables and no writes |
| Store.Database.AddRawOpportunities | database_manager.py:13-35 | no client or an empty batch: 0 and nothing sent; otherwise one upsert request; its effect on success and its count |
| Store.Database.GetAllScrapedLinks | database_manager.py:37-67 | the page ranges requested and the links of the pages read before the empty page or the failing request |
| Store.Database.GetPendingOpportunities | database_manager.py:69-86 | the pending rows, or none without a client or on error |
| Store.Database.BulkUpdateStatuses | database_manager.py:107-133 | no client or no updates: nothing sent; else one bulk request, applied unless it fails |
| Store.Database.AddProcessedOpportunity | database_manager.py:136-150 | one upsert request when there is a client, applied unless it fails |
| Store.Database.DeleteExpiredOpportunities | database_manager.py:152-176 | one delete with today's UTC date; the table keeps the non-expired rows |
| Store.Database.DeleteStaleOpportunities | database_manager.py:178-214 | one delete with the cutoff `threshold` months back; the table keeps the non-stale rows |
| Records.Field | main.py:189-234 | `dict.get`: a value iff the key is present, and it is the stored one |
| Records.Items | main.py:248-249 | iteration through `str()`: a list gives the text of each item, a string its characters, an object its keys; a number, boolean or null raises |
| Records.Joined | main.py:227 | `", ".join`: raises iff the value is a scalar or a list holding a non-string; otherwise the join of the iterated items |
| Records.Length | ai_analyzer.py:146 | `len`: the number of iterated items; raises iff the value is a scalar |
| Records.Take | ai_analyzer.py:147 | a slice `[:n]`: defined iff the value is a string or a list, of the same kind, holding its first min(n, length) items |
| Records.Mentions | main.py:207-210 | `in`: a substring test on a string, an element test on a list, a key test on an object; raises iff the value is a scalar |
| Pipeline.UpdateFor | main.py:197-240 | a retry has no update; every other verdict updates the posting's own link |
| Pipeline.GeoRelevance | main.py:248-249 | raises iff `eligible` or `excluded` is a scalar; otherwise it is the relevance rule on the `str()` texts of their items |
| Pipeline.AcceptOrExpire | main.py:214-234 | expired iff the deadline is strictly before today; otherwise it raises iff either join raises, and an accepted record carries the posting's link, title and source, the model's fields, and the two joins |
| Pipeline.Decide | main.py:194-212 | irrelevant iff the geography rule says so; any other verdict needs a relevant geography |
| Pipeline.Enriched | main.py:204-221 | never irrelevant; a retry iff the summary mentions the call failure; an AI error iff it does not and a permanent-failure sentinel is present; a scalar summary raises; otherwise the cleaned deadline decides expiry or acceptance, and a raising parser propagates |
| Pipeline.AnalyzeOpportunity | main.py:180-240 | the verdict of the analysis; only an accepted posting is written, one upsert |
| Pipeline.IrrelevantSkipsEnrichment | main.py:197-202 | for an irrelevant posting the enrichment answer does not matter |
| Pipeline.NotConfiguredIsIrrelevant | main.py:194-199 | with no model configured every posting is irrelevant |
| Pipeline.MixedEligibleIsRelevant | main.py:248-249 | an `eligible` list `["Ethiopia", 5]` passes the relevance rule through `str()` |
| Pipeline.MixedEligibleRaisesAtJoin | main.py:227 | the same list makes the record's join raise, so the worker crashes |
| Pipeline.CallFailureMeansRetry | main.py:207-209 | a failed call leaves the posting for the next run |
| Pipeline.ErrorSentinelMeansAiError | main.py:210-212 | an "Error" funding amount without the call-failed text is a permanent AI error |
| Pipeline.MalformedMeansAiError | main.py:210-212 | the malformed-JSON answer is a permanent AI error |
| Pipeline.NoObjectMeansAiError | main.py:210-212 | the no-JSON-object answer is a permanent AI error |
| Pipeline.ExpiryIsStrict | main.py:217-221 | a deadline of today is not expired; expiry iff before today |
| Pipeline.AcceptedSurvivesSameDaySweep | main.py:217-221 | an accepted posting is not deleted by a sweep on the same date |
| Pipeline.Arrivals | main.py:145-152 | the postings in completion order, each once |
| Pipeline.EntryOf | main.py:159-160 | at most one entry, present iff the worker returned an update |
| Pipeline.ProcessorStep | main.py:152-163 | one more worker adds its entry, its count and its insert |
| Pipeline.RunOneWorker | main.py:152-163 | one pass of the loop keeps the batch, count, inserts and table in step with their specifications |
| Pipeline.RunWorkers | main.py:139-169 | the loop's batch, count, relevant count, inserts and processed table |
| Pipeline.RunProcessorStage | main.py:121-177 | reads the pending rows, runs a worker per row, and makes one bulk write only when the batch is non-empty |
| Pipeline.BatchEntries | main.py:152-163 | the batch has one entry per worker that reported, drawn from those workers; relevant ≤ reported ≤ processed |
| Pipeline.BatchDistinct | main.py:130-163 | distinct postings give batch entries with distinct links |
| Pipeline.UnreportedHasNoEntry | main.py:154-169 | a worker that raised or asked to retry has no entry |
| Pipeline.ArrivalsDistinct | main.py:130-150 | the arriving postings have distinct links |
| Pipeline.UnreportedStaysPending | main.py:171-174 | a posting without an entry is still pending after the bulk update |
| Pipeline.DedupLinks | main.py:103-109 | the loop computes the de-duplication function |
| Pipeline.DedupKeepsOrder | main.py:103-109 | the kept records are in input order |
| Pipeline.DedupDistinctLinks | main.py:103-109 | kept links are distinct and non-empty and cover every non-empty input link |
| Pipeline.DedupKeepsFirst | main.py:103-109 | each kept record is the first in the input with its link |
| Pipeline.RunCollectorStage | main.py:80-117 | reads the links, merges the adapters' records in completion order, de-duplicates, and saves only a non-empty result |
| Pipeline.GatheredMembers | main.py:92-100 | a merged record comes from an adapter that did not raise |
| Pipeline.CollectedRecordsAreNew | main.py:90-100 | every record the three adapters hand over has a link not yet stored and names one of the three sites |
| Pipeline.AsWrittenCollectsNothingFromOd | main.py:90-100 | with the adapter as written, no Opportunity Desk record ever reaches the collector |
| Pipeline.CollectedArePending | main.py:80-117 | a saved record with a new link is pending, so the same run analyses it |
| Pipeline.Maintained | main.py:67-78 | exactly the rows neither expired nor stale survive maintenance |
| Pipeline.Swept | main.py:67-78 | a row is kept iff no sweep that ran (client present, request applied) matches it |
| Pipeline.RunMaintenanceStage | main.py:67-78 | both deletes are sent in order; with both applied the table keeps exactly the rows neither expired nor stale, with one failed only the other's rows go, with both failed nothing changes |
| Pipeline.SweepAndCollect | main.py:281-282 | maintenance writes come before the collector's batch |
| Pipeline.RunPipeline | main.py:274-283 | the sweeps are the run's first writes and the raw batch the next; the collector and processor have their own completion orders; the final raw table is the collected table with the batch applied when the bulk update succeeds, and the final processed table is the swept one plus the workers' inserts |
| Scraping.RecentLinksMembers | gso_scraper.py:83-98 | a link is kept iff some post has it, with a date that reads as no earlier than the cutoff |
| Scraping.CrawlStopsAtHalt | gso_scraper.py:66-117 | pages after the one that ends the crawl play no part |
| Scraping.CrawlRaisesAt | gso_scraper.py:83-98 | a crawl that reaches a listing page with a date the parser raises on raises |
| Scraping.CrawlRaisedAt | gso_scraper.py:83-98 | a crawl raises only by reaching such a page: every page before it was collected and asked for more |
| Scraping.CrawlErrorKeepsPrefix | gso_scraper.py:115-119 | a request that fails keeps the links gathered so far: where the full crawl returns, the failing one returns a prefix of its links |
| Scraping.CrawlLinksFromPages | gso_scraper.py:83-98 | every crawled link comes from a recent post of a page within the site |
| Scraping.AppendRecent | gso_scraper.py:83-98 | the loop over one page's posts appends that page's recent links in order, and raises iff one of its dates makes the parser raise |
| Scraping.VisitPage | gso_scraper.py:68-117 | one pass of the listing loop keeps the outcome equal to the crawl's; it goes on iff the page asks for more and nothing raised |
| Scraping.CrawlLinks | gso_scraper.py:50-119 | the crawl's outcome; when it returns, the pages requested are 1 to the one that ended it, each earlier one asking for more |
| Scraping.FilterNew | gso_scraper.py:161 | exactly the recent links not stored yet, in order |
| Scraping.ApplyTestLimit | gso_scraper.py:164-166 | a prefix, of the limit's length when positive and the list is longer |
| Scraping.LinksToScrapeBounds | gso_scraper.py:161-166 | links to scrape are recent and new, and no more than the limit |
| Scraping.CollectedMembers | gso_scraper.py:169-178 | a record is collected iff some link's detail page gives it; no more records than links |
| Scraping.CollectDetails | gso_scraper.py:169-179 | the loop computes the collected records |
| Scraping.TitledDetails | gso_scraper.py:121-147 | a record iff the page has a heading other than "Title not found"; the record's fields |
| Scraping.SiteRecordsAreNew | gso_scraper.py:149-182 | the adapter raises iff its crawl raises; otherwise every record comes from a recent, new crawled link, within the limit |
| Scraping.ScrapeSite | gso_scraper.py:149-182 | the adapter's outcome, raised or its records, and the number of listing pages requested |
| Gso.UnitAtName | gso_scraper.py:27 | the unit alternative matches its own name |
| Gso.RelativeDateMatched | gso_scraper.py:27-31 | the text "n unit[s] ago" matches with quantity n and that unit |
| Gso.RelativeDateRecognised | gso_scraper.py:27-30 | "n unit[s] ago…" is matched with quantity n and that unit, whatever follows |
| Gso.RelativeTextNormalised | gso_scraper.py:23 | lower-casing and stripping leave a relative date as it is |
| Gso.RelativeDateValue | gso_scraper.py:23-40 | a relative date reads as the time the quantity of its unit ago |
| Gso.Ago | gso_scraper.py:31-39 | months go back by calendar months; hours, days and weeks give now minus the seconds, and raise `OverflowError` iff the span exceeds `timedelta`'s range or the result falls before year 1 |
| Gso.ReadRelative | gso_scraper.py:26-40 | a normalised text that matches the pattern reads as the relative time |
| Gso.AbsoluteDateParsed | gso_scraper.py:42-47 | text not starting with a digit goes to the general parser |
| Gso.ListingStep | gso_scraper.py:69-113 | a page is collected iff the container has posts; the crawl goes on iff there is a non-empty next link |
| Gso.RunScrapeGso | gso_scraper.py:149-182 | the adapter's outcome; when it returns, each record is named for the site, titled, and from a new link |
| Gso.RecordsShape | gso_scraper.py:130-143 | the adapter raises iff its crawl raises; otherwise each record names the site, has a real title and a link not yet stored |
| Od.PageUrlInjective | od_scraper.py:34 | distinct page numbers give distinct URLs |
| Od.ListingStep | od_scraper.py:38-73 | a 404, an error or a page without articles ends the crawl; any other page is followed by the next |
| Od.LastSegment | od_scraper.py:101 | the part after the last slash |
| Od.TitleCase | od_scraper.py:102 | each letter after a letter is lower-cased, every other letter upper-cased |
| Od.TitleCaseIdempotent | od_scraper.py:102 | title-casing twice is title-casing once |
| Od.SlugTitleSeparators | od_scraper.py:100-102 | the slug title holds no slash and no hyphen |
| Od.SlugTitleStable | od_scraper.py:100-102 | the slug title is already title-cased |
| Od.Details | od_scraper.py:83-117 | a record iff the page loads: the URL, the site's name, the content or '', and as title the heading, else the slug title of the URL's path, else the fallback text |
| Od.ProxyKeywordUndeclared | od_scraper.py:125 | `use_proxy` is not a parameter of the session helper |
| Od.AsWrittenAlwaysRaises | od_scraper.py:119-130 | as written, the adapter raises whatever the site serves |
| Od.RecordsShape | od_scraper.py:119-155 | the corrected adapter raises iff its crawl raises; otherwise its records name the site and come from new links |
| Od.RunScrapeOd | od_scraper.py:20-81 | the outcome, and the listing URLs requested: the base URL, then `page/n/`, each page before the last collected |
| Ofy.StopAt | ofy_scraper.py:29 | the first quote or line break from a position on |
| Ofy.ExtractNonceSound | ofy_scraper.py:29-33 | a found nonce lies between the marker and a quote, with no quote or line break in it |
| Ofy.ExtractNonceComplete | ofy_scraper.py:29-36 | whenever the page holds such a nonce, one is found |
| Ofy.NonceRoundTrip | ofy_scraper.py:29-33 | a page that begins with the marker gives back the nonce written there |
| Ofy.ToPageInjective | ofy_scraper.py:65 | distinct pages send distinct `to_page` values |
| Ofy.ListingStep | ofy_scraper.py:67-100 | an error, a blank body or a body without articles ends the crawl |
| Ofy.PostKept | ofy_scraper.py:85-97 | a post is kept iff it is dated and its date, '+' read as space, parses to a time no earlier than the cutoff; it raises iff that parse raises |
| Ofy.RecordsShape | ofy_scraper.py:137-177 | without a usable nonce nothing is scraped; otherwise the adapter raises iff its crawl raises, and its records name the site, are titled and come from new links |
| Ofy.RunScrapeOfy | ofy_scraper.py:137-177 | the outcome, and the `to_page` values sent: "1", "2", … in order |

## Left out

- Threads, the semaphore and `MAX_CONCURRENT_AI_CALLS`. Both pools are modelled as an arbitrary completion order in which each task finishes once. Workers are taken as not interleaving their inserts.
- HTTP, HTML parsing, `time.sleep` waits, request headers and timeouts. Pages and detail pages are parameters that give what the parser would find. The retry helper's sleeps are recorded, not performed.
- The hosted database service is a log of write requests plus two in-memory tables. The `bulk_update_raw_status` stored procedure is outside the repository, so it is taken as applying the entries in order.
- The language model, `json.loads` and `dateutil`'s parser are function parameters. `relativedelta` and the current time are parameters too; times are integer seconds.
- A single run uses one `now`. The source reads the clock separately in each call.
- Lower-casing and title-casing cover ASCII letters only, and `\d` is taken as ASCII digits. Unicode case mapping is not modelled.
- Sites are finite: each has a last page, and a request beyond it ends the crawl. A Global South Opportunities site whose next links form a cycle would make the source loop forever; that case is not modelled.
- `Od.Details`: `urlsplit` is the `pathOf` parameter, and None stands for a raised exception.
- `Gso.Ago`: `relativedelta` month subtraction is the `monthsBefore` parameter and is taken to stay in range; the source raises `ValueError` when it would fall before year 1.
- `Records.Repr`: a string nested in a list or object is quoted with single quotes, without Python's choice of quote or its escapes.
- JSON objects are taken to have distinct keys, as `json.loads` builds them.
- `setup_logging`, all logging, the prompt texts and `utils.py`'s Supabase initialisation: no behaviour to model. `init_supabase_client` is the `connected` flag of the client.
- The deprecated `update_raw_opportunity_status`: nothing calls it.
- The one-off repair scripts `fix_existing_focus_areas.py` and `fix_focus_areas_format.py` are not part of this model.

## Findings

| source | as written | input that shows it | evidently intended | confidence | as-written member | corrected member |
|---|---|---|---|---|---|---|
| od_scraper.py:125 | calls `create_retry_session(use_proxy=True)`, but the helper (utils.py:39-44) declares only `retries`, `backoff_factor`, `status_forcelist` and `session`, so Python raises `TypeError` before any request and the collector logs the failure | any run: every call of `scrape_od` raises, so Opportunity Desk never contributes a record | a retry session the helper can create, after which the adapter crawls and collects as its code describes | high (not executed) | Od.ScrapeOdAsWritten, Od.AsWrittenAlwaysRaises | Od.ScrapeOd |
