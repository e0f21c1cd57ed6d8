/** main.py: the worker that turns one pending posting into a verdict and
    a status update, the processor stage that gathers those updates into
    one bulk write, the collector stage that merges and de-duplicates the
    fetch adapters' output, and the order of the three stages. The thread
    pools are replaced by a completion order: the workers' results are
    taken one after the other in that order. */
module Pipeline {
  import opened Common
  import opened Dates
  import opened Records
  import opened Relevance
  import opened AiAnalyzer
  import opened Store
  import opened Scraping
  import Gso
  import Ofy
  import Od

  // -----------------------------------------------------------------------
  // One worker: analyze_opportunity
  // -----------------------------------------------------------------------

  /** What the worker needs besides the posting: whether a model is
      configured, the model's answers, the JSON decoder, the date parser
      and the local date of the run. */
  datatype Analyst = Analyst(
    configured: bool,
    model: (Prompt, nat) -> Attempt,
    decode: string -> Option<JsonObject>,
    parse: string -> Completion<Option<CalendarDate>>,
    today: CalendarDate)

  /** How a worker ends when it does not raise. */
  datatype Verdict =
    | Irrelevant
    | RetryLater
    | AiError
    | Expired
    | Accepted(record: ProcessedRecord)

  /** The status update the worker returns beside its verdict; a retry
      returns none, so the posting stays pending. */
  function UpdateFor(link: string, v: Verdict): (r: Option<StatusUpdate>)
    ensures r.None? <==> v.RetryLater?
    ensures r.Some? ==> r.value.link == link
  {
    match v
    case Irrelevant => Some(StatusUpdate(link, ProcessedIrrelevant))
    case RetryLater => None
    case AiError => Some(StatusUpdate(link, ProcessedAiError))
    case Expired => Some(StatusUpdate(link, ProcessedExpired))
    case Accepted(_) => Some(StatusUpdate(link, ProcessedRelevant))
  }

  /** The geography rule on the decoded reply, applied to the texts
      `str(g)` of the `eligible` and `excluded` values; iterating a scalar
      raises TypeError. */
  function GeoRelevance(geo: JsonObject): (r: Completion<(bool, Reason)>)
    ensures r.Raised? <==> Get(geo, "eligible", JList([])).JScalar? || Get(geo, "excluded", JList([])).JScalar?
    ensures r.Normal? ==>
      r.value == IsRelevantForEthiopia(Items(Get(geo, "eligible", JList([]))).value,
                                       Items(Get(geo, "excluded", JList([]))).value)
  {
    match Items(Get(geo, "eligible", JList([])))
    case Raised => Raised
    case Normal(eligible) =>
      match Items(Get(geo, "excluded", JList([])))
      case Raised => Raised
      case Normal(excluded) => Normal(IsRelevantForEthiopia(eligible, excluded))
  }

  /** The last step of the chain: a parsed deadline before today expires
      the posting; otherwise the processed record is built, which raises
      TypeError when `eligible` or `focus_areas` cannot be joined. */
  function AcceptOrExpire(opp: RawRecord, geo: JsonObject, data: JsonObject,
                          deadline: Option<string>, today: CalendarDate): (r: Completion<Verdict>)
    requires deadline.Some? ==> ParseIso(deadline.value).Some?
    ensures r == Normal(Expired) <==> deadline.Some? && Before(ParseIso(deadline.value).value, today)
    ensures r.Raised? <==>
      && !(deadline.Some? && Before(ParseIso(deadline.value).value, today))
      && (Joined(Get(geo, "eligible", JList([])), ", ").Raised? || Joined(Get(data, "focus_areas", JList([])), ", ").Raised?)
    ensures r.Normal? && r.value.Accepted? ==>
      var rec := r.value.record;
      && rec.link == opp.link && rec.title == opp.title && rec.source == opp.source
      && rec.deadline == deadline
      && rec.rawDeadlineText == Field(data, "deadline")
      && rec.fundingAmount == Field(data, "funding_amount")
      && rec.funder == Field(data, "funder")
      && rec.summary == Field(data, "summary")
      && Joined(Get(geo, "eligible", JList([])), ", ") == Normal(rec.geographicScope)
      && Joined(Get(data, "focus_areas", JList([])), ", ") == Normal(rec.focusAreas)
    ensures r.Normal? ==> r.value.Expired? || r.value.Accepted?
  {
    if deadline.Some? && Before(ParseIso(deadline.value).value, today) then Normal(Expired)
    else match Joined(Get(geo, "eligible", JList([])), ", ")
      case Raised => Raised
      case Normal(scope) =>
        match Joined(Get(data, "focus_areas", JList([])), ", ")
        case Raised => Raised
        case Normal(areas) =>
          Normal(Accepted(ProcessedRecord(
            opp.link, opp.title, opp.source, scope,
            Field(data, "funding_amount"), Field(data, "funder"),
            deadline, Field(data, "deadline"),
            areas, Field(data, "summary"))))
  }

  /** `summary` of the enrichment reply, '' when absent. */
  function Summary(data: JsonObject): JsonValue {
    Get(data, "summary", JStr(""))
  }

  /** The sentinels of a permanent failure: an "Error" funding amount, or
      a summary that mentions malformed JSON or a missing JSON object. */
  predicate PermanentFailure(data: JsonObject) {
    || Get(data, "funding_amount", JStr("")) == JStr("Error")
    || Mentions(Summary(data), "malformed JSON") == Normal(true)
    || Mentions(Summary(data), "No JSON object") == Normal(true)
  }

  /** The chain after a relevant geography: the enrichment sentinels, then
      the deadline. A summary mentioning the call failure asks for a retry;
      otherwise a permanent-failure sentinel is an AI error; otherwise the
      cleaned deadline decides between expiry and acceptance. The first
      test raises for a scalar summary, and the deadline parser may raise. */
  function Enriched(opp: RawRecord, geo: JsonObject, data: JsonObject, a: Analyst): (r: Completion<Verdict>)
    ensures r.Normal? ==> !r.value.Irrelevant?
    ensures r == Normal(RetryLater) <==> Mentions(Summary(data), "AI call failed") == Normal(true)
    ensures r == Normal(AiError) <==>
      Mentions(Summary(data), "AI call failed") == Normal(false) && PermanentFailure(data)
    ensures Mentions(Summary(data), "AI call failed").Raised? ==> r.Raised?
    ensures Mentions(Summary(data), "AI call failed") == Normal(false) && !PermanentFailure(data) ==>
      var deadline := ValidateAndCleanDeadline(Field(data, "deadline"), a.parse);
      && (deadline.Raised? ==> r.Raised?)
      && (deadline.Normal? ==> r == AcceptOrExpire(opp, geo, data, deadline.value, a.today))
  {
    match Mentions(Summary(data), "AI call failed")
    case Raised => Raised
    case Normal(failed) =>
      if failed then Normal(RetryLater)
      else if PermanentFailure(data) then Normal(AiError)
      else match ValidateAndCleanDeadline(Field(data, "deadline"), a.parse)
        case Raised => Raised
        case Normal(deadline) => AcceptOrExpire(opp, geo, data, deadline, a.today)
  }

  /** The decision chain of `analyze_opportunity` on the two replies. An
      irrelevant geography ends the chain before the enrichment reply is
      looked at. */
  function Decide(opp: RawRecord, geo: JsonObject, enrichment: Completion<JsonObject>, a: Analyst): (r: Completion<Verdict>)
    ensures r == Normal(Irrelevant) <==> GeoRelevance(geo).Normal? && !GeoRelevance(geo).value.0
    ensures r.Normal? && !r.value.Irrelevant? ==> GeoRelevance(geo).Normal? && GeoRelevance(geo).value.0
  {
    match GeoRelevance(geo)
    case Raised => Raised
    case Normal(rel) =>
      if !rel.0 then Normal(Irrelevant)
      else match enrichment
        case Raised => Raised
        case Normal(data) => Enriched(opp, geo, data, a)
  }

  /** The worker's result for one posting. */
  function Analysis(opp: RawRecord, a: Analyst): Completion<Verdict> {
    Decide(opp,
           GeographicScope(a.configured, opp.title, opp.fullText, a.model, a.decode),
           Enrichment(a.configured, opp.title, opp.fullText, a.model, a.decode),
           a)
  }

  /** `analyze_opportunity`: asks for the geography, decides relevance,
      asks for the enrichment only for a relevant posting, and writes the
      processed record before returning an acceptance. */
  method AnalyzeOpportunity(db: Database, opp: RawRecord, a: Analyst, now: int, insertFails: bool)
    returns (outcome: Completion<Verdict>)
    requires db.Valid()
    modifies db
    ensures db.Valid()
    ensures outcome == Analysis(opp, a)
    ensures db.raw == old(db.raw)
    ensures !(outcome.Normal? && outcome.value.Accepted?) ==>
      db.processed == old(db.processed) && db.writes == old(db.writes)
    ensures outcome.Normal? && outcome.value.Accepted? && db.connected ==>
      && db.writes == old(db.writes) + [UpsertProcessed(outcome.value.record)]
      && db.processed == (if insertFails then old(db.processed)
                          else UpsertProcessedRow(old(db.processed), outcome.value.record, now))
    ensures outcome.Normal? && outcome.value.Accepted? && !db.connected ==>
      db.processed == old(db.processed) && db.writes == old(db.writes)
  {
    var geo := GetGeographicScope(a.configured, opp.title, opp.fullText, a.model, a.decode);
    var relevance := GeoRelevance(geo);
    if relevance.Raised? {
      return Raised;
    }
    if !relevance.value.0 {
      return Normal(Irrelevant);
    }
    var enrichment := GetEnrichmentData(a.configured, opp.title, opp.fullText, a.model, a.decode);
    if enrichment.Raised? {
      return Raised;
    }
    outcome := Enriched(opp, geo, enrichment.value, a);
    if outcome.Normal? && outcome.value.Accepted? {
      db.AddProcessedOpportunity(outcome.value.record, now, insertFails);
    }
  }

  // Properties of the decision chain

  /** An irrelevant geography gives `processed_irrelevant` whatever the
      enrichment reply would have been. */
  lemma IrrelevantSkipsEnrichment(opp: RawRecord, geo: JsonObject, e1: Completion<JsonObject>,
                                  e2: Completion<JsonObject>, a: Analyst)
    requires GeoRelevance(geo).Normal? && !GeoRelevance(geo).value.0
    ensures Decide(opp, geo, e1, a) == Decide(opp, geo, e2, a) == Normal(Irrelevant)
  {
  }

  /** Without a configured model the geography is empty, so every posting
      is irrelevant. */
  lemma NotConfiguredIsIrrelevant(opp: RawRecord, a: Analyst)
    requires !a.configured
    ensures Analysis(opp, a) == Normal(Irrelevant)
  {
    var geo := GeographicScope(a.configured, opp.title, opp.fullText, a.model, a.decode);
    assert geo == NoGeography;
    assert Items(Get(geo, "eligible", JList([]))) == Normal([]);
    assert Items(Get(geo, "excluded", JList([]))) == Normal([]);
  }

  /** A mixed `eligible` list: a place name beside a number. */
  function MixedEligible(): JsonObject {
    map["eligible" := JList([JStr("Ethiopia"), JScalar("5")])]
  }

  /** The texts the geography rule reads from the mixed list: the place
      name and the number through `str()`; no exclusions. */
  lemma MixedEligibleTexts()
    ensures Items(Get(MixedEligible(), "eligible", JList([]))) == Normal(["Ethiopia", "5"])
    ensures Items(Get(MixedEligible(), "excluded", JList([]))) == Normal([])
  {
    var items := [JStr("Ethiopia"), JScalar("5")];
    assert Get(MixedEligible(), "eligible", JList([])) == JList(items);
    assert Str(items[0]) == "Ethiopia" && Str(items[1]) == "5";
    assert Items(JList(items)).value == ["Ethiopia", "5"];
  }

  /** The first of those texts normalises to Ethiopia. */
  lemma MixedEligibleNamesTarget()
    ensures Target in NormalizeAll(Items(Get(MixedEligible(), "eligible", JList([]))).value)
  {
    MixedEligibleTexts();
    var texts := Items(Get(MixedEligible(), "eligible", JList([]))).value;
    NormalizeEthiopia(texts[0]);
    assert NormalizeAll(texts)[0] == Target;
  }

  /** The mixed list passes the geography rule, since each item is read
      through `str()`. */
  lemma MixedEligibleIsRelevant()
    ensures GeoRelevance(MixedEligible()) == Normal((true, IncludesTarget))
  {
    MixedEligibleTexts();
    MixedEligibleNamesTarget();
    TargetIncluded(Items(Get(MixedEligible(), "eligible", JList([]))).value, []);
  }

  /** ... but the accepted record cannot be built from it: joining a list
      that holds a number raises. */
  lemma MixedEligibleRaisesAtJoin(opp: RawRecord, data: JsonObject, today: CalendarDate)
    ensures AcceptOrExpire(opp, MixedEligible(), data, None, today) == Raised
  {
    var items := [JStr("Ethiopia"), JScalar("5")];
    assert Get(MixedEligible(), "eligible", JList([])) == JList(items);
    assert !items[1].JStr?;
  }

  /** A text lacking one of the characters of `part` does not contain it. */
  lemma MissingCharNotContained(s: string, part: string, j: nat)
    requires j < |part| && part[j] !in s
    ensures !Contains(s, part)
  {
    forall i | 0 <= i <= |s| - |part|
      ensures !OccursAt(s, part, i)
    {
      assert s[i..i + |part|][j] == s[i + j];
    }
  }

  /** The call-failure sentinel of the enrichment means "retry on the next
      run": no status update, the posting stays pending. */
  lemma CallFailureMeansRetry(opp: RawRecord, geo: JsonObject, a: Analyst)
    requires GeoRelevance(geo).Normal? && GeoRelevance(geo).value.0
    ensures Decide(opp, geo, Normal(FixedEnrichment(CallFailedSummary, "Error")), a) == Normal(RetryLater)
  {
    assert OccursAt(CallFailedSummary, "AI call failed", 0);
  }

  lemma MalformedLacksCallFailure()
    ensures !Contains(MalformedSummary, "AI call failed")
  {
    assert "AI call failed"[3] == 'c' && 'c' !in MalformedSummary;
    MissingCharNotContained(MalformedSummary, "AI call failed", 3);
  }

  lemma NoObjectLacksCallFailure()
    ensures !Contains(NoObjectSummary, "AI call failed")
  {
    assert "AI call failed"[5] == 'l' && 'l' !in NoObjectSummary;
    MissingCharNotContained(NoObjectSummary, "AI call failed", 5);
  }

  /** A failure sentinel whose summary does not mention a call failure
      gives `processed_ai_error`: its funding amount is "Error". */
  lemma ErrorSentinelMeansAiError(opp: RawRecord, geo: JsonObject, summary: string, a: Analyst)
    requires GeoRelevance(geo).Normal? && GeoRelevance(geo).value.0
    requires !Contains(summary, "AI call failed")
    ensures Decide(opp, geo, Normal(FixedEnrichment(summary, "Error")), a) == Normal(AiError)
  {
    var data := FixedEnrichment(summary, "Error");
    assert Summary(data) == JStr(summary);
    assert Get(data, "funding_amount", JStr("")) == JStr("Error");
  }

  /** The malformed-JSON sentinel means `processed_ai_error`. */
  lemma MalformedMeansAiError(opp: RawRecord, geo: JsonObject, a: Analyst)
    requires GeoRelevance(geo).Normal? && GeoRelevance(geo).value.0
    ensures Decide(opp, geo, Normal(FixedEnrichment(MalformedSummary, "Error")), a) == Normal(AiError)
  {
    MalformedLacksCallFailure();
    ErrorSentinelMeansAiError(opp, geo, MalformedSummary, a);
  }

  /** The no-JSON-object sentinel means `processed_ai_error`. */
  lemma NoObjectMeansAiError(opp: RawRecord, geo: JsonObject, a: Analyst)
    requires GeoRelevance(geo).Normal? && GeoRelevance(geo).value.0
    ensures Decide(opp, geo, Normal(FixedEnrichment(NoObjectSummary, "Error")), a) == Normal(AiError)
  {
    NoObjectLacksCallFailure();
    ErrorSentinelMeansAiError(opp, geo, NoObjectSummary, a);
  }

  /** The expiry test is strict: a parsed deadline expires the posting
      exactly when it is before today, so a deadline of today is kept. */
  lemma ExpiryIsStrict(opp: RawRecord, geo: JsonObject, data: JsonObject, d: CalendarDate, today: CalendarDate)
    ensures ParseIso(FormatIso(d)) == Some(d) && ParseIso(FormatIso(today)) == Some(today)
    ensures AcceptOrExpire(opp, geo, data, Some(FormatIso(d)), today) == Normal(Expired) <==> Before(d, today)
    ensures AcceptOrExpire(opp, geo, data, Some(FormatIso(today)), today) != Normal(Expired)
  {
    FormatParseRoundTrip(d);
    FormatParseRoundTrip(today);
  }

  /** An accepted posting's stored deadline, if any, is not before the
      run's date, so a maintenance sweep dated the same day keeps it. */
  lemma AcceptedSurvivesSameDaySweep(opp: RawRecord, a: Analyst, row: ProcessedRow)
    requires Analysis(opp, a).Normal? && Analysis(opp, a).value.Accepted?
    requires row.record == Analysis(opp, a).value.record
    ensures !IsExpired(row, FormatIso(a.today))
  {
    var geo := GeographicScope(a.configured, opp.title, opp.fullText, a.model, a.decode);
    var enrichment := Enrichment(a.configured, opp.title, opp.fullText, a.model, a.decode);
    var data := enrichment.value;
    var deadline := ValidateAndCleanDeadline(Field(data, "deadline"), a.parse).value;
    assert Enriched(opp, geo, data, a) == Analysis(opp, a);
    assert row.record.deadline == deadline;
    if deadline.Some? {
      var d := a.parse(Field(data, "deadline").value.s).value.value;
      assert deadline.value == FormatIso(d);
      FormatParseRoundTrip(d);
      FormatOrder(d, a.today);
    }
  }

  // -----------------------------------------------------------------------
  // The processor stage: run_processor_stage
  // -----------------------------------------------------------------------

  /** The order in which the workers finish: every position once. */
  predicate IsCompletionOrder(order: seq<nat>, n: nat) {
    && |order| == n
    && (forall k | 0 <= k < n :: order[k] < n)
    && (forall j, k | 0 <= j < k < n :: order[j] != order[k])
  }

  /** The thread pool's completion order for any number of tasks. */
  ghost predicate IsScheduler(completion: nat -> seq<nat>) {
    forall n :: IsCompletionOrder(completion(n), n)
  }

  /** The postings in the order their workers finish. */
  function Arrivals(pending: seq<RawRow>, order: seq<nat>): (r: seq<RawRecord>)
    requires IsCompletionOrder(order, |pending|)
    ensures |r| == |pending|
    ensures forall k | 0 <= k < |r| :: r[k] == pending[order[k]].record
  {
    seq(|order|, k requires 0 <= k < |order| => pending[order[k]].record)
  }

  /** The worker of the processor stage as a function of the posting. */
  function Worker(a: Analyst): RawRecord -> Completion<Verdict> {
    opp => Analysis(opp, a)
  }

  /** What one finished worker adds to the batch: its update, if any. */
  function EntryOf(opp: RawRecord, outcome: Completion<Verdict>): (r: seq<StatusUpdate>)
    ensures |r| <= 1
    ensures r != [] <==> outcome.Normal? && !outcome.value.RetryLater?
    ensures r != [] ==> r[0] == UpdateFor(opp.link, outcome.value).value
  {
    match outcome
    case Raised => []
    case Normal(v) =>
      match UpdateFor(opp.link, v)
      case None => []
      case Some(u) => [u]
  }

  /** The batch once the workers of `arrivals` have finished, in order. */
  function Batch(arrivals: seq<RawRecord>, worker: RawRecord -> Completion<Verdict>): seq<StatusUpdate>
    decreases |arrivals|
  {
    if arrivals == [] then []
    else
      var n := |arrivals| - 1;
      Batch(arrivals[..n], worker) + EntryOf(arrivals[n], worker(arrivals[n]))
  }

  /** The workers of `arrivals` that report a relevant posting. */
  function RelevantCount(arrivals: seq<RawRecord>, worker: RawRecord -> Completion<Verdict>): nat
    decreases |arrivals|
  {
    if arrivals == [] then 0
    else
      var n := |arrivals| - 1;
      var o := worker(arrivals[n]);
      RelevantCount(arrivals[..n], worker) + (if o.Normal? && o.value.Accepted? then 1 else 0)
  }

  /** The processed-record writes of the workers of `arrivals`. */
  function InsertWrites(arrivals: seq<RawRecord>, worker: RawRecord -> Completion<Verdict>): seq<Request>
    decreases |arrivals|
  {
    if arrivals == [] then []
    else
      var n := |arrivals| - 1;
      var o := worker(arrivals[n]);
      InsertWrites(arrivals[..n], worker) + (if o.Normal? && o.value.Accepted? then [UpsertProcessed(o.value.record)] else [])
  }

  /** The processed table after the workers of `arrivals`; the write of
      worker `k` fails when `insertFails(k)`. */
  function AfterInserts(processed: seq<ProcessedRow>, arrivals: seq<RawRecord>, worker: RawRecord -> Completion<Verdict>,
                        now: int, insertFails: nat -> bool): seq<ProcessedRow>
    decreases |arrivals|
  {
    if arrivals == [] then processed
    else
      var n := |arrivals| - 1;
      var before := AfterInserts(processed, arrivals[..n], worker, now, insertFails);
      var o := worker(arrivals[n]);
      if o.Normal? && o.value.Accepted? && !insertFails(n) then UpsertProcessedRow(before, o.value.record, now)
      else before
  }

  /** What one more finished worker adds to each of the stage's results. */
  lemma ProcessorStep(processed: seq<ProcessedRow>, arrivals: seq<RawRecord>, worker: RawRecord -> Completion<Verdict>,
                      now: int, insertFails: nat -> bool, k: nat)
    requires k < |arrivals|
    ensures var o := worker(arrivals[k]);
      var accepted := o.Normal? && o.value.Accepted?;
      && Batch(arrivals[..k + 1], worker) == Batch(arrivals[..k], worker) + EntryOf(arrivals[k], o)
      && RelevantCount(arrivals[..k + 1], worker) == RelevantCount(arrivals[..k], worker) + (if accepted then 1 else 0)
      && InsertWrites(arrivals[..k + 1], worker) ==
         InsertWrites(arrivals[..k], worker) + (if accepted then [UpsertProcessed(o.value.record)] else [])
      && AfterInserts(processed, arrivals[..k + 1], worker, now, insertFails) ==
         (if accepted && !insertFails(k) then UpsertProcessedRow(AfterInserts(processed, arrivals[..k], worker, now, insertFails), o.value.record, now)
          else AfterInserts(processed, arrivals[..k], worker, now, insertFails))
  {
    assert arrivals[..k + 1][..k] == arrivals[..k] && arrivals[..k + 1][k] == arrivals[k];
  }

  /** One pass of the worker loop: the worker of position `k` runs on a
      table that holds the inserts of the earlier positions, its update
      joins the batch and an accepted posting is counted. */
  method RunOneWorker(db: Database, a: Analyst, now: int, arrivals: seq<RawRecord>, insertFails: nat -> bool,
                      ghost start: seq<ProcessedRow>, k: nat, batch: seq<StatusUpdate>, relevantCount: nat)
    returns (batch': seq<StatusUpdate>, relevantCount': nat, ghost written: seq<Request>)
    requires k < |arrivals| && db.Valid() && db.connected
    requires batch == Batch(arrivals[..k], Worker(a))
    requires relevantCount == RelevantCount(arrivals[..k], Worker(a))
    requires db.processed == AfterInserts(start, arrivals[..k], Worker(a), now, insertFails)
    modifies db
    ensures db.Valid() && db.raw == old(db.raw)
    ensures batch' == Batch(arrivals[..k + 1], Worker(a))
    ensures relevantCount' == RelevantCount(arrivals[..k + 1], Worker(a))
    ensures db.processed == AfterInserts(start, arrivals[..k + 1], Worker(a), now, insertFails)
    ensures db.writes == old(db.writes) + written
    ensures InsertWrites(arrivals[..k + 1], Worker(a)) == InsertWrites(arrivals[..k], Worker(a)) + written
  {
    var opp := arrivals[k];
    var outcome := AnalyzeOpportunity(db, opp, a, now, insertFails(k));
    assert Worker(a)(opp) == outcome;
    ProcessorStep(start, arrivals, Worker(a), now, insertFails, k);
    var accepted := outcome.Normal? && outcome.value.Accepted?;
    written := if accepted then [UpsertProcessed(outcome.value.record)] else [];
    // A worker that raised, or asked for a retry, has no update to add.
    batch' := batch + EntryOf(opp, outcome);
    relevantCount' := if accepted then relevantCount + 1 else relevantCount;
  }

  /** The loop of `run_processor_stage` over the workers in completion
      order: every worker is counted, the update of each worker that
      returned one is appended to the batch, and the relevant ones are
      counted. */
  method RunWorkers(db: Database, a: Analyst, now: int, arrivals: seq<RawRecord>, insertFails: nat -> bool)
    returns (processedCount: nat, relevantCount: nat, batch: seq<StatusUpdate>)
    requires db.Valid() && db.connected
    modifies db
    ensures db.Valid() && db.raw == old(db.raw)
    ensures processedCount == |arrivals|
    ensures batch == Batch(arrivals, Worker(a))
    ensures relevantCount == RelevantCount(arrivals, Worker(a))
    ensures db.processed == AfterInserts(old(db.processed), arrivals, Worker(a), now, insertFails)
    ensures db.writes == old(db.writes) + InsertWrites(arrivals, Worker(a))
  {
    processedCount, relevantCount, batch := 0, 0, [];
    var k := 0;
    while k < |arrivals|
      invariant 0 <= k <= |arrivals|
      invariant db.Valid() && db.raw == old(db.raw)
      invariant processedCount == k
      invariant batch == Batch(arrivals[..k], Worker(a))
      invariant relevantCount == RelevantCount(arrivals[..k], Worker(a))
      invariant db.processed == AfterInserts(old(db.processed), arrivals[..k], Worker(a), now, insertFails)
      invariant db.writes == old(db.writes) + InsertWrites(arrivals[..k], Worker(a))
    {
      ghost var w0, w1 := old(db.writes), InsertWrites(arrivals[..k], Worker(a));
      ghost var written;
      batch, relevantCount, written := RunOneWorker(db, a, now, arrivals, insertFails, old(db.processed), k, batch, relevantCount);
      ConcatAssociative(w0, w1, written);
      processedCount := processedCount + 1;
      k := k + 1;
    }
    assert arrivals[..k] == arrivals;
  }

  /** `run_processor_stage`: reads the pending rows, returns at once when
      there are none, runs one worker per row, and commits the collected
      updates in a single bulk write when there is at least one. */
  method RunProcessorStage(db: Database, a: Analyst, now: int, completion: nat -> seq<nat>, readFails: bool,
                           insertFails: nat -> bool, updateFails: bool)
    returns (processedCount: nat, relevantCount: nat, batch: seq<StatusUpdate>)
    requires db.Valid()
    requires IsScheduler(completion)
    modifies db
    ensures db.Valid() && old(db.writes) <= db.writes
    ensures
      var pending := if db.connected && !readFails then PendingRows(old(db.raw)) else [];
      var arrivals := Arrivals(pending, completion(|pending|));
      && processedCount == |pending|
      && batch == Batch(arrivals, Worker(a))
      && relevantCount == RelevantCount(arrivals, Worker(a))
      && db.processed == AfterInserts(old(db.processed), arrivals, Worker(a), now, insertFails)
      && db.writes == old(db.writes) + InsertWrites(arrivals, Worker(a)) + (if batch != [] then [BulkUpdate(batch)] else [])
      && db.raw == (if batch != [] && !updateFails then ApplyStatusUpdates(old(db.raw), batch) else old(db.raw))
  {
    var pending := db.GetPendingOpportunities(readFails);
    if pending == [] {
      return 0, 0, [];
    }
    var arrivals := Arrivals(pending, completion(|pending|));
    processedCount, relevantCount, batch := RunWorkers(db, a, now, arrivals, insertFails);
    if batch != [] {
      db.BulkUpdateStatuses(batch, updateFails);
    }
  }

  // Properties of the processor stage

  /** A worker that finished without raising and without asking for a
      retry. */
  predicate Reports(opp: RawRecord, worker: RawRecord -> Completion<Verdict>) {
    worker(opp).Normal? && !worker(opp).value.RetryLater?
  }

  /** The number of reporting workers. */
  function ReportCount(arrivals: seq<RawRecord>, worker: RawRecord -> Completion<Verdict>): nat
    decreases |arrivals|
  {
    if arrivals == [] then 0
    else ReportCount(arrivals[..|arrivals| - 1], worker) + (if Reports(arrivals[|arrivals| - 1], worker) then 1 else 0)
  }

  /** The batch holds one entry per reporting worker, in completion order:
      each entry is the update of a reporting worker, every reporting
      worker's update is in it, and there are as many entries as reporting
      workers; crashed and retried workers add nothing. At most the
      reporting workers count as relevant. */
  lemma {:induction false} BatchEntries(arrivals: seq<RawRecord>, worker: RawRecord -> Completion<Verdict>)
    ensures |Batch(arrivals, worker)| == ReportCount(arrivals, worker) <= |arrivals|
    ensures RelevantCount(arrivals, worker) <= ReportCount(arrivals, worker)
    ensures forall u | u in Batch(arrivals, worker) :: exists k | 0 <= k < |arrivals| ::
      Reports(arrivals[k], worker) && UpdateFor(arrivals[k].link, worker(arrivals[k]).value) == Some(u)
    ensures forall k | 0 <= k < |arrivals| && Reports(arrivals[k], worker) ::
      UpdateFor(arrivals[k].link, worker(arrivals[k]).value).value in Batch(arrivals, worker)
    decreases |arrivals|
  {
    if arrivals != [] {
      var n := |arrivals| - 1;
      var prefix := arrivals[..n];
      BatchEntries(prefix, worker);
      var entry := EntryOf(arrivals[n], worker(arrivals[n]));
      assert Batch(arrivals, worker) == Batch(prefix, worker) + entry;
      forall u | u in Batch(arrivals, worker)
        ensures exists k | 0 <= k < |arrivals| ::
          Reports(arrivals[k], worker) && UpdateFor(arrivals[k].link, worker(arrivals[k]).value) == Some(u)
      {
        if u in Batch(prefix, worker) {
          var k :| 0 <= k < |prefix| && Reports(prefix[k], worker)
            && UpdateFor(prefix[k].link, worker(prefix[k]).value) == Some(u);
          assert arrivals[k] == prefix[k];
        } else {
          assert u == entry[0];
        }
      }
    }
  }

  /** When the postings have distinct links, so do the batch's entries. */
  lemma {:induction false} BatchDistinct(arrivals: seq<RawRecord>, worker: RawRecord -> Completion<Verdict>)
    requires DistinctBy(arrivals, LinkOf)
    ensures DistinctBy(Batch(arrivals, worker), UpdateLinkOf)
    decreases |arrivals|
  {
    if arrivals != [] {
      var n := |arrivals| - 1;
      var prefix := arrivals[..n];
      BatchDistinct(prefix, worker);
      BatchEntries(prefix, worker);
      var entry := EntryOf(arrivals[n], worker(arrivals[n]));
      var batch := Batch(arrivals, worker);
      assert batch == Batch(prefix, worker) + entry;
      if entry != [] {
        forall i | 0 <= i < |Batch(prefix, worker)|
          ensures Batch(prefix, worker)[i].link != entry[0].link
        {
          var u := Batch(prefix, worker)[i];
          var k :| 0 <= k < |prefix| && Reports(prefix[k], worker)
            && UpdateFor(prefix[k].link, worker(prefix[k]).value) == Some(u);
          assert LinkOf(arrivals[k]) != LinkOf(arrivals[n]);
        }
      }
    }
  }

  /** A worker that crashed or asked for a retry has no entry. */
  lemma UnreportedHasNoEntry(arrivals: seq<RawRecord>, worker: RawRecord -> Completion<Verdict>, k: nat)
    requires DistinctBy(arrivals, LinkOf)
    requires k < |arrivals| && !Reports(arrivals[k], worker)
    ensures forall i | 0 <= i < |Batch(arrivals, worker)| :: Batch(arrivals, worker)[i].link != arrivals[k].link
  {
    BatchEntries(arrivals, worker);
    forall i | 0 <= i < |Batch(arrivals, worker)|
      ensures Batch(arrivals, worker)[i].link != arrivals[k].link
    {
      var u := Batch(arrivals, worker)[i];
      var j :| 0 <= j < |arrivals| && Reports(arrivals[j], worker)
        && UpdateFor(arrivals[j].link, worker(arrivals[j]).value) == Some(u);
      assert j != k;
      assert LinkOf(arrivals[j]) != LinkOf(arrivals[k]);
    }
  }

  /** The pending rows, taken in completion order, have distinct links. */
  lemma ArrivalsDistinct(raw: seq<RawRow>, order: seq<nat>)
    requires UniqueRawLinks(raw)
    requires IsCompletionOrder(order, |PendingRows(raw)|)
    ensures DistinctBy(Arrivals(PendingRows(raw), order), LinkOf)
  {
    var pending := PendingRows(raw);
    PendingRowsUnique(raw);
    var arrivals := Arrivals(pending, order);
    forall i, j | 0 <= i < j < |arrivals|
      ensures LinkOf(arrivals[i]) != LinkOf(arrivals[j])
    {
      var p, q := order[i], order[j];
      if p < q {
        assert RawLinkOf(pending[p]) != RawLinkOf(pending[q]);
      } else {
        assert RawLinkOf(pending[q]) != RawLinkOf(pending[p]);
      }
    }
  }

  /** A posting whose worker crashed or asked for a retry keeps its pending
      status through the bulk update, so the next run analyses it again. */
  lemma UnreportedStaysPending(raw: seq<RawRow>, order: seq<nat>, worker: RawRecord -> Completion<Verdict>, k: nat, i: nat)
    requires UniqueRawLinks(raw)
    requires IsCompletionOrder(order, |PendingRows(raw)|)
    requires k < |order| && !Reports(Arrivals(PendingRows(raw), order)[k], worker)
    requires i < |raw| && raw[i].record == Arrivals(PendingRows(raw), order)[k]
    ensures ApplyStatusUpdates(raw, Batch(Arrivals(PendingRows(raw), order), worker))[i].status == PendingAnalysis
  {
    var pending := PendingRows(raw);
    var arrivals := Arrivals(pending, order);
    var batch := Batch(arrivals, worker);
    ArrivalsDistinct(raw, order);
    UnreportedHasNoEntry(arrivals, worker, k);
    LastStatusAbsent(batch, raw[i].record.link);
    ApplyStatusUpdatesEffect(raw, batch);
    var row := pending[order[k]];
    assert row in raw && row.status == PendingAnalysis;
    var m :| 0 <= m < |raw| && raw[m] == row;
    assert RawLinkOf(raw[m]) == RawLinkOf(raw[i]);
  }

  // -----------------------------------------------------------------------
  // The collector stage: run_collector_stage
  // -----------------------------------------------------------------------

  /** The records of the adapters, in the order they finish; an adapter
      that raised contributes nothing. */
  function Gathered(scrapers: seq<Scraper>, order: seq<nat>, existing: set<string>): seq<RawRecord>
    requires forall k | 0 <= k < |order| :: order[k] < |scrapers|
    decreases |order|
  {
    if order == [] then []
    else
      var n := |order| - 1;
      Gathered(scrapers, order[..n], existing) +
        (match scrapers[order[n]](existing) case Normal(records) => records case Raised => [])
  }

  /** First-occurrence de-duplication: from left to right, a record is
      kept when its link is non-empty and no kept record has it yet. */
  function Dedup(records: seq<RawRecord>): seq<RawRecord>
    decreases |records|
  {
    if records == [] then []
    else
      var n := |records| - 1;
      var kept := Dedup(records[..n]);
      if records[n].link != "" && records[n].link !in BatchLinks(kept) then kept + [records[n]] else kept
  }

  /** The de-duplication loop of `run_collector_stage`, with its set of
      links seen so far. */
  method DedupLinks(records: seq<RawRecord>) returns (unique: seq<RawRecord>)
    ensures unique == Dedup(records)
  {
    unique := [];
    var seen: set<string> := {};
    for k := 0 to |records|
      invariant unique == Dedup(records[..k])
      invariant seen == BatchLinks(unique)
    {
      var opp := records[k];
      assert records[..k + 1][..k] == records[..k] && records[..k + 1][k] == opp;
      if opp.link != "" && opp.link !in seen {
        BatchLinksAppend(unique, opp);
        unique := unique + [opp];
        seen := seen + {opp.link};
      }
    }
    assert records[..|records|] == records;
  }

  /** The de-duplicated records keep their input order. */
  lemma {:induction false} DedupKeepsOrder(records: seq<RawRecord>)
    ensures IsSubsequence(Dedup(records), records)
    decreases |records|
  {
    if records != [] {
      var n := |records| - 1;
      var prefix := records[..n];
      DedupKeepsOrder(prefix);
      assert records == prefix + [records[n]];
      if Dedup(records) == Dedup(prefix) {
        SubsequenceExtend(Dedup(prefix), prefix, records[n]);
      } else {
        SubsequenceAppend(Dedup(prefix), prefix, records[n]);
      }
    }
  }

  /** The de-duplicated records have pairwise distinct, non-empty links,
      and they cover every non-empty link of the input. */
  lemma {:induction false} DedupDistinctLinks(records: seq<RawRecord>)
    ensures DistinctBy(Dedup(records), LinkOf)
    ensures forall m | 0 <= m < |Dedup(records)| :: Dedup(records)[m].link != ""
    ensures BatchLinks(Dedup(records)) == BatchLinks(records) - {""}
    decreases |records|
  {
    if records != [] {
      var n := |records| - 1;
      var prefix := records[..n];
      var x := records[n];
      DedupDistinctLinks(prefix);
      var kept := Dedup(prefix);
      assert records == prefix + [x];
      BatchLinksAppend(prefix, x);
      if x.link != "" && x.link !in BatchLinks(kept) {
        BatchLinksAppend(kept, x);
        var out := kept + [x];
        forall i, j | 0 <= i < j < |out|
          ensures LinkOf(out[i]) != LinkOf(out[j])
        {
          if j == |kept| {
            assert out[i].link in BatchLinks(kept);
          } else {
            assert LinkOf(kept[i]) != LinkOf(kept[j]);
          }
        }
      }
    }
  }

  /** Each de-duplicated record is the first record of the input with its
      link. */
  lemma {:induction false} DedupKeepsFirst(records: seq<RawRecord>)
    ensures forall m | 0 <= m < |Dedup(records)| :: exists i | 0 <= i < |records| ::
      records[i] == Dedup(records)[m] && forall j | 0 <= j < i :: records[j].link != records[i].link
    decreases |records|
  {
    if records != [] {
      var n := |records| - 1;
      var prefix := records[..n];
      var x := records[n];
      DedupKeepsFirst(prefix);
      DedupDistinctLinks(prefix);
      var kept := Dedup(prefix);
      var out := Dedup(records);
      forall m | 0 <= m < |out|
        ensures exists i | 0 <= i < |records| ::
          records[i] == out[m] && forall j | 0 <= j < i :: records[j].link != records[i].link
      {
        if m < |kept| {
          assert out[m] == kept[m];
          var i :| 0 <= i < |prefix| && prefix[i] == kept[m]
            && forall j | 0 <= j < i :: prefix[j].link != prefix[i].link;
          assert forall j | 0 <= j <= i :: records[j] == prefix[j];
          assert records[i] == out[m];
        } else {
          assert out == kept + [x] && out[m] == x;
          forall j | 0 <= j < n ensures records[j].link != x.link {
            assert prefix[j].link in BatchLinks(prefix);
          }
          assert records[n] == out[m];
        }
      }
      assert out == Dedup(records);
    } else {
      assert Dedup(records) == [];
    }
  }

  /** `run_collector_stage`: reads the stored links, runs the adapters on
      them, merges their records in completion order, de-duplicates them,
      and saves them when any are left. */
  method RunCollectorStage(db: Database, scrapers: seq<Scraper>, completion: nat -> seq<nat>,
                           failAt: Option<nat>, upsertFails: bool)
    returns (unique: seq<RawRecord>)
    requires db.Valid() && IsScheduler(completion)
    modifies db
    ensures db.Valid() && db.processed == old(db.processed)
    ensures
      var existing := if db.connected then ScannedLinks(old(db.raw), failAt) else {};
      unique == Dedup(Gathered(scrapers, completion(|scrapers|), existing))
    ensures unique == [] || !db.connected ==> db.raw == old(db.raw) && db.writes == old(db.writes)
    ensures unique != [] && db.connected ==>
      && db.writes == old(db.writes) + [UpsertRaw(unique)]
      && db.raw == (if upsertFails then old(db.raw) else UpsertRawRows(old(db.raw), unique))
  {
    var existing, _ := db.GetAllScrapedLinks(failAt);
    var order := completion(|scrapers|);
    var all: seq<RawRecord> := [];
    for k := 0 to |order|
      invariant all == Gathered(scrapers, order[..k], existing)
    {
      assert order[..k + 1][..k] == order[..k];
      var result := scrapers[order[k]](existing);
      match result {
        case Normal(records) =>
          all := all + records;
        case Raised =>
      }
    }
    assert order[..|order|] == order;
    unique := DedupLinks(all);
    if unique != [] {
      var _ := db.AddRawOpportunities(unique, upsertFails);
    }
  }

  // -----------------------------------------------------------------------
  // The collector's adapters
  // -----------------------------------------------------------------------

  /** The adapters of `run_collector_stage`, in the order it lists them,
      with the Opportunity Desk adapter corrected. */
  function Scrapers(gso: Gso.GsoSite, ofy: Ofy.OfySite, od: Od.OdSite, clock: Clock): seq<Scraper> {
    [Gso.ScrapeGso(gso, clock), Ofy.ScrapeOfy(ofy, clock), Od.ScrapeOd(od, clock)]
  }

  /** The same list with the Opportunity Desk adapter as written. */
  function ScrapersAsWritten(gso: Gso.GsoSite, ofy: Ofy.OfySite, od: Od.OdSite, clock: Clock): seq<Scraper> {
    [Gso.ScrapeGso(gso, clock), Ofy.ScrapeOfy(ofy, clock), Od.ScrapeOdAsWritten(od, clock)]
  }

  /** A gathered record comes from an adapter that finished without
      raising. */
  lemma {:induction false} GatheredMembers(scrapers: seq<Scraper>, order: seq<nat>, existing: set<string>, r: RawRecord)
    requires forall k | 0 <= k < |order| :: order[k] < |scrapers|
    requires r in Gathered(scrapers, order, existing)
    ensures exists k | 0 <= k < |order| ::
      scrapers[order[k]](existing).Normal? && r in scrapers[order[k]](existing).value
    decreases |order|
  {
    var n := |order| - 1;
    var last := scrapers[order[n]](existing);
    if last.Normal? && r in last.value {
    } else {
      GatheredMembers(scrapers, order[..n], existing, r);
      var k :| 0 <= k < n && scrapers[order[..n][k]](existing).Normal? && r in scrapers[order[..n][k]](existing).value;
      assert order[..n][k] == order[k];
    }
  }

  /** Every record the three adapters hand to the collector comes from a
      link that was not stored yet, and names one of the three sites. */
  lemma CollectedRecordsAreNew(gso: Gso.GsoSite, ofy: Ofy.OfySite, od: Od.OdSite, clock: Clock,
                               order: seq<nat>, existing: set<string>)
    requires forall k | 0 <= k < |order| :: order[k] < 3
    ensures forall r | r in Gathered(Scrapers(gso, ofy, od, clock), order, existing) ::
      && r.link !in existing
      && (r.source == Gso.SourceName || r.source == Ofy.SourceName || r.source == Od.SourceName)
  {
    var scrapers := Scrapers(gso, ofy, od, clock);
    forall r | r in Gathered(scrapers, order, existing)
      ensures r.link !in existing
      ensures r.source == Gso.SourceName || r.source == Ofy.SourceName || r.source == Od.SourceName
    {
      GatheredMembers(scrapers, order, existing, r);
      var k :| 0 <= k < |order| && scrapers[order[k]](existing).Normal? && r in scrapers[order[k]](existing).value;
      if order[k] == 0 {
        Gso.RecordsShape(gso, clock, existing);
      } else if order[k] == 1 {
        Ofy.RecordsShape(ofy, clock, existing);
      } else {
        Od.RecordsShape(od, clock, existing);
      }
    }
  }

  /** With the Opportunity Desk adapter as written, no gathered record
      names that site: its adapter always raises. */
  lemma AsWrittenCollectsNothingFromOd(gso: Gso.GsoSite, ofy: Ofy.OfySite, od: Od.OdSite, clock: Clock,
                                       order: seq<nat>, existing: set<string>)
    requires forall k | 0 <= k < |order| :: order[k] < 3
    ensures forall r | r in Gathered(ScrapersAsWritten(gso, ofy, od, clock), order, existing) ::
      r.source == Gso.SourceName || r.source == Ofy.SourceName
  {
    var scrapers := ScrapersAsWritten(gso, ofy, od, clock);
    forall r | r in Gathered(scrapers, order, existing)
      ensures r.source == Gso.SourceName || r.source == Ofy.SourceName
    {
      GatheredMembers(scrapers, order, existing, r);
      var k :| 0 <= k < |order| && scrapers[order[k]](existing).Normal? && r in scrapers[order[k]](existing).value;
      if order[k] == 0 {
        Gso.RecordsShape(gso, clock, existing);
      } else if order[k] == 1 {
        Ofy.RecordsShape(ofy, clock, existing);
      } else {
        Od.AsWrittenAlwaysRaises(od, clock, existing);
      }
    }
  }

  /** A collected record whose link was not stored is pending analysis
      once the batch is saved, so the processor stage of the same run
      reads it. */
  lemma CollectedArePending(rows: seq<RawRow>, unique: seq<RawRecord>, l: string)
    requires l in BatchLinks(unique) && l !in LinkSet(rows)
    ensures exists i | 0 <= i < |PendingRows(UpsertRawRows(rows, unique))| ::
      PendingRows(UpsertRawRows(rows, unique))[i].record.link == l
  {
    var after := UpsertRawRows(rows, unique);
    UpsertRawRowsStatus(rows, unique, l);
    var i := RawIndex(after, l).value;
    assert after[i].status == PendingAnalysis;
    var pending := PendingRows(after);
    var j :| 0 <= j < |pending| && pending[j] == after[i];
  }

  // -----------------------------------------------------------------------
  // The maintenance stage and the run
  // -----------------------------------------------------------------------

  /** Months after which a posting without a deadline counts as stale
      (config.py). */
  const StaleOpportunityMonths: nat := 9

  /** The processed rows both sweeps keep: exactly those that are neither
      expired nor stale. */
  function Maintained(rows: seq<ProcessedRow>, today: string, cutoff: int): (r: seq<ProcessedRow>)
    ensures forall row :: row in r <==> row in rows && !IsExpired(row, today) && !IsStale(row, cutoff)
  {
    var kept := WithoutExpired(rows, today);
    var r := WithoutStale(kept, cutoff);
    assert forall row | row in r :: row in kept;
    assert forall row | row in rows && !IsExpired(row, today) :: row in kept;
    r
  }

  /** The processed table after the two sweeps: a sweep that failed, or
      a client that was not created, deletes nothing. A row is kept
      exactly when no sweep that ran matches it. */
  function Swept(connected: bool, rows: seq<ProcessedRow>, today: string, cutoff: int,
                 expiredFails: bool, staleFails: bool): (r: seq<ProcessedRow>)
    ensures forall row :: row in r <==>
      && row in rows
      && !(connected && !expiredFails && IsExpired(row, today))
      && !(connected && !staleFails && IsStale(row, cutoff))
  {
    if !connected then rows
    else
      var kept := if expiredFails then rows else WithoutExpired(rows, today);
      var r := if staleFails then kept else WithoutStale(kept, cutoff);
      assert forall row | row in r :: row in kept;
      assert forall row | row in rows && !(!expiredFails && IsExpired(row, today)) :: row in kept;
      r
  }

  /** `run_maintenance_stage`: the expiry sweep on today's UTC date, then
      the stale sweep nine months back; each is sent even when the other
      failed. */
  method RunMaintenanceStage(db: Database, today: CalendarDate, clock: Clock, expiredFails: bool, staleFails: bool)
    requires db.Valid()
    modifies db
    ensures db.Valid() && db.raw == old(db.raw)
    ensures !db.connected ==> db.processed == old(db.processed) && db.writes == old(db.writes)
    ensures db.connected ==>
      (db.writes == old(db.writes) + [DeleteExpired(FormatIso(today)), DeleteStale(clock.monthsBefore(clock.now, StaleOpportunityMonths))])
    ensures db.connected && !expiredFails && !staleFails ==>
      db.processed == Maintained(old(db.processed), FormatIso(today), clock.monthsBefore(clock.now, StaleOpportunityMonths))
    ensures db.connected && expiredFails && !staleFails ==>
      db.processed == WithoutStale(old(db.processed), clock.monthsBefore(clock.now, StaleOpportunityMonths))
    ensures db.connected && !expiredFails && staleFails ==>
      db.processed == WithoutExpired(old(db.processed), FormatIso(today))
    ensures expiredFails && staleFails ==> db.processed == old(db.processed)
    ensures db.processed == Swept(db.connected, old(db.processed), FormatIso(today),
                                  clock.monthsBefore(clock.now, StaleOpportunityMonths), expiredFails, staleFails)
  {
    db.DeleteExpiredOpportunities(today, expiredFails);
    db.DeleteStaleOpportunities(StaleOpportunityMonths, clock.now, clock.monthsBefore, staleFails);
  }

  /** Which requests of a run fail: the two sweeps, the link scan (at the
      given page), the upsert of the raw batch, the read of the pending
      rows, each insert of an accepted posting, and the bulk update. */
  datatype Failures = Failures(
    expired: bool, stale: bool, scanAt: Option<nat>, upsert: bool,
    read: bool, insert: nat -> bool, update: bool)

  /** The raw table the processor stage reads: the collected batch saved,
      unless nothing was collected or the save failed. */
  function RawAfterCollect(connected: bool, raw: seq<RawRow>, unique: seq<RawRecord>, upsertFails: bool): seq<RawRow> {
    if connected && unique != [] && !upsertFails then UpsertRawRows(raw, unique) else raw
  }

  /** The first two stages of the main script: maintenance, then the
      collector. The sweeps are written before the raw batch. */
  method SweepAndCollect(db: Database, today: CalendarDate, clock: Clock, scrapers: seq<Scraper>,
                         completion: nat -> seq<nat>, fails: Failures)
    returns (unique: seq<RawRecord>)
    requires db.Valid() && IsScheduler(completion)
    modifies db
    ensures db.Valid()
    ensures
      var existing := if db.connected then ScannedLinks(old(db.raw), fails.scanAt) else {};
      unique == Dedup(Gathered(scrapers, completion(|scrapers|), existing))
    ensures db.raw == RawAfterCollect(db.connected, old(db.raw), unique, fails.upsert)
    ensures db.processed == Swept(db.connected, old(db.processed), FormatIso(today),
                                  clock.monthsBefore(clock.now, StaleOpportunityMonths), fails.expired, fails.stale)
    ensures db.writes == old(db.writes) + (if db.connected then
      [DeleteExpired(FormatIso(today)), DeleteStale(clock.monthsBefore(clock.now, StaleOpportunityMonths))] +
      (if unique != [] then [UpsertRaw(unique)] else []) else [])
  {
    RunMaintenanceStage(db, today, clock, fails.expired, fails.stale);
    unique := RunCollectorStage(db, scrapers, completion, fails.scanAt, fails.upsert);
  }

  /** The main script: maintenance, then the collector, then the
      processor. Each stage has its own thread pool, so each has its own
      completion order. The sweeps are the first writes of a run, the raw
      batch follows them, and the processor works on the pending rows of
      the table as the collector left it. */
  method RunPipeline(db: Database, today: CalendarDate, clock: Clock, scrapers: seq<Scraper>,
                     scrapeOrder: nat -> seq<nat>, workOrder: nat -> seq<nat>, a: Analyst, fails: Failures)
    returns (unique: seq<RawRecord>, processedCount: nat, batch: seq<StatusUpdate>)
    requires db.Valid() && IsScheduler(scrapeOrder) && IsScheduler(workOrder)
    modifies db
    ensures db.Valid()
    ensures
      var existing := if db.connected then ScannedLinks(old(db.raw), fails.scanAt) else {};
      unique == Dedup(Gathered(scrapers, scrapeOrder(|scrapers|), existing))
    ensures db.connected ==>
      && |db.writes| >= |old(db.writes)| + 2
      && db.writes[..|old(db.writes)| + 2] == old(db.writes) +
        [DeleteExpired(FormatIso(today)), DeleteStale(clock.monthsBefore(clock.now, StaleOpportunityMonths))]
    ensures db.connected && unique != [] ==>
      |db.writes| > |old(db.writes)| + 2 && db.writes[|old(db.writes)| + 2] == UpsertRaw(unique)
    ensures
      var collected := RawAfterCollect(db.connected, old(db.raw), unique, fails.upsert);
      var pending := if db.connected && !fails.read then PendingRows(collected) else [];
      var arrivals := Arrivals(pending, workOrder(|pending|));
      var cutoff := clock.monthsBefore(clock.now, StaleOpportunityMonths);
      && processedCount == |pending|
      && batch == Batch(arrivals, Worker(a))
      && db.raw == (if batch != [] && !fails.update then ApplyStatusUpdates(collected, batch) else collected)
      && db.processed == AfterInserts(Swept(db.connected, old(db.processed), FormatIso(today), cutoff, fails.expired, fails.stale),
                                      arrivals, Worker(a), clock.now, fails.insert)
  {
    unique := SweepAndCollect(db, today, clock, scrapers, scrapeOrder, fails);
    ghost var collected := db.writes;
    var relevantCount;
    processedCount, relevantCount, batch := RunProcessorStage(db, a, clock.now, workOrder, fails.read, fails.insert, fails.update);
    if db.connected {
      ghost var sweeps := [DeleteExpired(FormatIso(today)), DeleteStale(clock.monthsBefore(clock.now, StaleOpportunityMonths))];
      ghost var saved := if unique != [] then [UpsertRaw(unique)] else [];
      assert collected == old(db.writes) + (sweeps + saved);
      WritesKeepOrder(old(db.writes), sweeps, saved, db.writes);
    }
  }

  /** The writes of a later stage extend those of the earlier ones: the
      sweeps stay at the head of the run's writes, the saved batch right
      after them. */
  lemma WritesKeepOrder(before: seq<Request>, sweeps: seq<Request>, saved: seq<Request>, after: seq<Request>)
    requires before + (sweeps + saved) <= after
    ensures |after| >= |before| + |sweeps| && after[..|before| + |sweeps|] == before + sweeps
    ensures saved != [] ==> |after| > |before| + |sweeps| && after[|before| + |sweeps|] == saved[0]
  {
    ConcatAssociative(before, sweeps, saved);
    assert after[..|before| + |sweeps|] == (before + sweeps + saved)[..|before| + |sweeps|];
  }
}
