/** The language-model side of the analysis (ai_analyzer.py): the retry
    loop and its backoff schedule, the JSON object cut out of a reply, and
    the geography and enrichment requests with their fixed fallback
    results. The model itself is a parameter: the outcome of the n-th
    attempt at a prompt. */
module AiAnalyzer {
  import opened Common
  import opened Records

  /** The outcome of one attempt: the reply text; a reply whose `.text`
      raised, after the one-second pause, with the exception's text; or
      the text of the exception `generate_content` itself raised. */
  datatype Attempt = Reply(text: string) | Unreadable(message: string) | Failure(message: string)

  /** What the model is asked: the geography question or the enrichment
      question, about a title and a snippet of the posting's text. */
  datatype Prompt =
    | GeoPrompt(title: string, snippet: string)
    | EnrichmentPrompt(title: string, snippet: string)

  /** The default `retries` and `base_delay` of the retry helper. */
  const Retries: nat := 3
  const BaseDelay: nat := 5

  /** How much of the posting's text each request shows the model. */
  const GeoSnippetLength: nat := 3000
  const EnrichmentSnippetLength: nat := 4000

  const MaxFocusAreas: nat := 3

  /** `text[:n]`. */
  function Snippet(text: string, n: nat): (r: string)
    ensures |r| <= n && |r| <= |text| && r == text[..|r|]
    ensures |text| <= n ==> r == text
  {
    text[..Min(n, |text|)]
  }

  // -----------------------------------------------------------------------
  // The retry helper
  // -----------------------------------------------------------------------

  /** A rate-limit error: its text mentions HTTP 429 or RESOURCE_EXHAUSTED. */
  predicate IsRateLimit(message: string) {
    Contains(message, "429") || Contains(message, "RESOURCE_EXHAUSTED")
  }

  const HintOpening: string := "retry_delay {"
  const HintField: string := "seconds: "

  /** The pattern `retry_delay {\s*seconds: (\d+)\s*}` matched at `i`: the
      number of seconds it captures. Each repetition is followed by a
      character it cannot take, so taking the longest run is the only way
      to match. */
  function HintAt(msg: string, i: nat): Option<nat>
    requires i <= |msg|
  {
    if !OccursAt(msg, HintOpening, i) then None
    else
      var j := RunEnd(msg, i + |HintOpening|, IsSpace);
      if !OccursAt(msg, HintField, j) then None
      else
        var k := j + |HintField|;
        var m := RunEnd(msg, k, IsDigit);
        if m == k then None
        else
          var e := RunEnd(msg, m, IsSpace);
          if e < |msg| && msg[e] == '}' then Some(DecimalValue(msg[k..m])) else None
  }

  /** The leftmost match of the hint pattern at or after `i`. */
  function HintFrom(msg: string, i: nat): (r: Option<nat>)
    requires i <= |msg|
    decreases |msg| - i
  {
    if HintAt(msg, i).Some? then HintAt(msg, i)
    else if i == |msg| then None
    else HintFrom(msg, i + 1)
  }

  /** `re.search(r'retry_delay {\s*seconds: (\d+)\s*}', msg)`: the delay the
      service suggests in its error text, if it suggests one. */
  function RetryDelayHint(msg: string): Option<nat> {
    HintFrom(msg, 0)
  }

  /** How long the helper sleeps after a failed attempt: the suggested delay
      plus one second for a rate-limit error that suggests one, the current
      delay otherwise. */
  function FailureSleep(msg: string, delay: nat): nat {
    if IsRateLimit(msg) && RetryDelayHint(msg).Some? then RetryDelayHint(msg).value + 1 else delay
  }

  /** A rate-limit error that suggests no delay of its own. */
  predicate DoublesDelay(msg: string) {
    IsRateLimit(msg) && RetryDelayHint(msg).None?
  }

  /** The delay after a failed attempt: doubled only by a rate-limit error
      that suggests no delay of its own. */
  function NextDelay(msg: string, delay: nat): nat {
    if DoublesDelay(msg) then 2 * delay else delay
  }

  /** What the helper returns and the pauses it takes: one group per
      attempt made, holding that attempt's sleeps in order. */
  datatype RetryRun = RetryRun(text: Option<string>, pauses: seq<seq<nat>>)

  function Prepend(pauses: seq<seq<nat>>, run: RetryRun): RetryRun {
    RetryRun(run.text, pauses + run.pauses)
  }

  /** An attempt that ends in the handler: either call or text raised. */
  predicate Failed(a: Attempt) {
    !a.Reply?
  }

  /** The sleeps of a failed attempt: the one-second pause when the reply
      came back but its text raised, then the handler's wait. */
  function FailurePauses(a: Attempt, delay: nat): (r: seq<nat>)
    requires Failed(a)
  {
    (if a.Unreadable? then [1] else []) + [FailureSleep(a.message, delay)]
  }

  /** The helper from attempt `i` on, with the current delay `delay`: a
      reply is returned after a one-second pause; a failure sleeps and
      goes on to the next attempt; after the last attempt it gives up. */
  function RetryFrom(attempt: nat -> Attempt, i: nat, retries: nat, delay: nat): RetryRun
    decreases retries - i
  {
    if i >= retries then RetryRun(None, [])
    else match attempt(i)
      case Reply(text) => RetryRun(Some(text), [[1]])
      case _ =>
        var msg := attempt(i).message;
        Prepend([FailurePauses(attempt(i), delay)], RetryFrom(attempt, i + 1, retries, NextDelay(msg, delay)))
  }

  /** The handler of `_call_gemini_with_retry` for a failed attempt: the
      wait it sleeps and the delay it leaves for the next attempt. */
  method HandleFailure(msg: string, delay: nat) returns (wait: nat, next: nat)
    ensures wait == FailureSleep(msg, delay) && next == NextDelay(msg, delay)
  {
    next := delay;
    if IsRateLimit(msg) {
      match RetryDelayHint(msg) {
        case Some(hint) =>
          wait := hint + 1;
        case None =>
          wait := delay;
          next := delay * 2;
      }
    } else {
      wait := delay;
    }
  }

  /** `_call_gemini_with_retry`. */
  method CallWithRetry(attempt: nat -> Attempt, retries: nat, baseDelay: nat) returns (text: Option<string>, pauses: seq<seq<nat>>)
    ensures RetryRun(text, pauses) == RetryFrom(attempt, 0, retries, baseDelay)
  {
    var delay := baseDelay;
    pauses := [];
    var i := 0;
    while i < retries
      invariant 0 <= i <= retries
      invariant RetryFrom(attempt, 0, retries, baseDelay) == Prepend(pauses, RetryFrom(attempt, i, retries, delay))
    {
      var outcome := attempt(i);
      if outcome.Reply? {
        ConcatAssociative(pauses, [[1]], []);
        pauses := pauses + [[1]];
        text := Some(outcome.text);
        return;
      }
      var slept: seq<nat> := [];
      if outcome.Unreadable? {
        slept := [1];
      }
      var wait, next := HandleFailure(outcome.message, delay);
      slept := slept + [wait];
      assert slept == FailurePauses(outcome, delay);
      ConcatAssociative(pauses, [slept], RetryFrom(attempt, i + 1, retries, next).pauses);
      pauses := pauses + [slept];
      delay := next;
      i := i + 1;
    }
    text := None;
  }

  function Pow2(n: nat): (p: nat)
    ensures p >= 1
  {
    if n == 0 then 1 else 2 * Pow2(n - 1)
  }

  /** The number of failures in attempts `i` to `k - 1` that double the
      delay: rate-limit errors without a suggested delay. */
  function Doublings(attempt: nat -> Attempt, i: nat, k: nat): nat
    decreases k - i
  {
    if k <= i then 0
    else
      var doubled := if Failed(attempt(k - 1)) && DoublesDelay(attempt(k - 1).message) then 1 else 0;
      doubled + Doublings(attempt, i, k - 1)
  }

  /** The helper makes at most `retries` attempts, with one group of
      pauses each, and returns the text of the first reply; it returns
      nothing exactly when every one of the `retries` attempts failed. */
  lemma {:induction false} RetryOutcome(attempt: nat -> Attempt, i: nat, retries: nat, delay: nat)
    requires i <= retries
    ensures var run := RetryFrom(attempt, i, retries, delay);
      && |run.pauses| <= retries - i
      && (run.text.None? <==> forall k | i <= k < retries :: Failed(attempt(k)))
      && (run.text.None? ==> |run.pauses| == retries - i)
      && (run.text.Some? ==>
            var k := i + |run.pauses| - 1;
            && i <= k < retries && attempt(k) == Reply(run.text.value)
            && (forall j | i <= j < k :: Failed(attempt(j))))
    decreases retries - i
  {
    if i < retries && Failed(attempt(i)) {
      var msg := attempt(i).message;
      RetryOutcome(attempt, i + 1, retries, NextDelay(msg, delay));
    }
  }

  /** The delay in force when attempt `k` starts, after attempts `i` to
      `k - 1`, starting from `delay`. */
  function DelayAt(attempt: nat -> Attempt, i: nat, k: nat, delay: nat): nat
    decreases k - i
  {
    if k <= i then delay
    else DelayAt(attempt, i + 1, k, if Failed(attempt(i)) then NextDelay(attempt(i).message, delay) else delay)
  }

  /** The sleeps of attempt `k` as the retry helper takes them: one group
      per attempt, in attempt order, with the delay in force. */
  lemma {:induction false} PausesAt(attempt: nat -> Attempt, i: nat, retries: nat, delay: nat, k: nat)
    requires i <= k < i + |RetryFrom(attempt, i, retries, delay).pauses|
    ensures var run := RetryFrom(attempt, i, retries, delay);
      run.pauses[k - i] == if Failed(attempt(k)) then FailurePauses(attempt(k), DelayAt(attempt, i, k, delay)) else [1]
    decreases retries - i
  {
    var run := RetryFrom(attempt, i, retries, delay);
    if Failed(attempt(i)) {
      var next := NextDelay(attempt(i).message, delay);
      var rest := RetryFrom(attempt, i + 1, retries, next);
      assert run.pauses == [FailurePauses(attempt(i), delay)] + rest.pauses;
      if k > i {
        assert run.pauses[k - i] == rest.pauses[k - (i + 1)];
        PausesAt(attempt, i + 1, retries, next, k);
      }
    }
  }

  /** The delay in force at attempt `k` is the starting delay doubled once
      per earlier hint-less rate limit. */
  lemma {:induction false} DelayAtDoubles(attempt: nat -> Attempt, i: nat, k: nat, delay: nat)
    ensures DelayAt(attempt, i, k, delay) == delay * Pow2(Doublings(attempt, i, k))
    decreases k - i
  {
    if k <= i {
      assert Doublings(attempt, i, k) == 0;
    } else {
      var next := if Failed(attempt(i)) then NextDelay(attempt(i).message, delay) else delay;
      var d := Doublings(attempt, i + 1, k);
      DelayAtDoubles(attempt, i + 1, k, next);
      DoublingsShift(attempt, i, k);
      if Failed(attempt(i)) {
        DelayScaling(attempt(i).message, delay, d);
      }
    }
  }

  /** The backoff schedule: a failed attempt `k` sleeps as `FailureSleep`
      says, with the base delay doubled once for every earlier rate-limit
      error that suggested no delay, after the one-second pause when its
      reply came back unreadable; the reply sleeps one second. */
  lemma RetrySchedule(attempt: nat -> Attempt, i: nat, retries: nat, delay: nat, k: nat)
    requires i <= k < i + |RetryFrom(attempt, i, retries, delay).pauses|
    ensures var run := RetryFrom(attempt, i, retries, delay);
      var wait := if Failed(attempt(k)) then FailureSleep(attempt(k).message, delay * Pow2(Doublings(attempt, i, k))) else 0;
      && (attempt(k).Failure? ==> run.pauses[k - i] == [wait])
      && (attempt(k).Unreadable? ==> run.pauses[k - i] == [1, wait])
      && (attempt(k).Reply? ==> run.pauses[k - i] == [1])
  {
    PausesAt(attempt, i, retries, delay, k);
    DelayAtDoubles(attempt, i, k, delay);
  }

  /** One step of the schedule: the delay after a failure, doubled `d`
      more times, is the delay before it doubled once more when the
      failure doubles it. */
  lemma DelayScaling(msg: string, delay: nat, d: nat)
    ensures NextDelay(msg, delay) * Pow2(d) == delay * Pow2((if DoublesDelay(msg) then 1 else 0) + d)
  {
    if DoublesDelay(msg) {
      assert Pow2(1 + d) == 2 * Pow2(d);
      assert (delay * 2) * Pow2(d) == delay * (2 * Pow2(d));
    }
  }

  /** Counting the doublings from `i` is counting attempt `i`, then the
      doublings from `i + 1`. */
  lemma {:induction false} DoublingsShift(attempt: nat -> Attempt, i: nat, k: nat)
    requires i < k
    ensures Doublings(attempt, i, k) ==
      (if Failed(attempt(i)) && DoublesDelay(attempt(i).message) then 1 else 0) + Doublings(attempt, i + 1, k)
    decreases k - i
  {
    if k - 1 > i {
      DoublingsShift(attempt, i, k - 1);
    }
  }

  /** With only rate-limit errors that suggest no delay, the attempts
      sleep the base delay doubling each time: 5, 10, 20 seconds for the
      defaults. */
  lemma DoublingBackoff(attempt: nat -> Attempt, retries: nat, baseDelay: nat, k: nat)
    requires forall j | 0 <= j < retries :: attempt(j).Failure? && DoublesDelay(attempt(j).message)
    requires k < retries
    ensures |RetryFrom(attempt, 0, retries, baseDelay).pauses| == retries
    ensures RetryFrom(attempt, 0, retries, baseDelay).pauses[k] == [baseDelay * Pow2(k)]
  {
    RetryOutcome(attempt, 0, retries, baseDelay);
    RetrySchedule(attempt, 0, retries, baseDelay, k);
    AllDoubling(attempt, retries, k);
  }

  lemma {:induction false} AllDoubling(attempt: nat -> Attempt, retries: nat, k: nat)
    requires forall j | 0 <= j < retries :: attempt(j).Failure? && DoublesDelay(attempt(j).message)
    requires k <= retries
    ensures Doublings(attempt, 0, k) == k
  {
    if k > 0 {
      AllDoubling(attempt, retries, k - 1);
    }
  }

  /** The hint is the leftmost match of the pattern. */
  lemma {:induction false} HintLeftmost(msg: string, i: nat, k: nat)
    requires i <= k <= |msg| && HintAt(msg, k).Some?
    requires forall j | i <= j < k :: HintAt(msg, j).None?
    ensures HintFrom(msg, i) == HintAt(msg, k)
    decreases k - i
  {
    if i < k {
      HintLeftmost(msg, i + 1, k);
    }
  }

  /** Without a match anywhere there is no hint. */
  lemma {:induction false} HintAbsent(msg: string, i: nat)
    requires i <= |msg|
    requires forall j | i <= j <= |msg| :: HintAt(msg, j).None?
    ensures HintFrom(msg, i).None?
    decreases |msg| - i
  {
    if i < |msg| {
      HintAbsent(msg, i + 1);
    }
  }

  predicate AllSpace(s: string) {
    forall t | 0 <= t < |s| :: IsSpace(s[t])
  }

  /** The pattern matches at the start of a text laid out as the opening,
      spaces, the field name, digits, spaces and a closing brace. */
  lemma HintAtStart(msg: string, j: nat, m: nat, e: nat)
    requires |HintOpening| <= j && j + |HintField| < m <= e < |msg|
    requires msg[..|HintOpening|] == HintOpening
    requires AllSpace(msg[|HintOpening|..j])
    requires msg[j..j + |HintField|] == HintField
    requires AllDigits(msg[j + |HintField|..m])
    requires AllSpace(msg[m..e])
    requires msg[e] == '}'
    ensures HintAt(msg, 0) == Some(DecimalValue(msg[j + |HintField|..m]))
  {
    assert OccursAt(msg, HintOpening, 0);
    assert msg[j] == HintField[0];
    RunEndOfSlice(msg, |HintOpening|, j, IsSpace);
    assert OccursAt(msg, HintField, j);
    assert !IsDigit(msg[m]) by {
      if m < e { assert msg[m] == msg[m..e][0]; }
    }
    RunEndOfSlice(msg, j + |HintField|, m, IsDigit);
    RunEndOfSlice(msg, m, e, IsSpace);
  }

  /** A run that covers a slice and stops at its end ends there. */
  lemma RunEndOfSlice(s: string, j: nat, e: nat, p: char -> bool)
    requires j <= e <= |s|
    requires forall t | 0 <= t < e - j :: p(s[j..e][t])
    requires e == |s| || !p(s[e])
    ensures RunEnd(s, j, p) == e
  {
    forall t | j <= t < e
      ensures p(s[t])
    {
      assert s[t] == s[j..e][t - j];
    }
  }

  /** Where each part of a hint lies in the text built from the parts. */
  lemma HintLayout(space1: string, digits: string, space2: string, rest: string)
    ensures var msg := HintOpening + space1 + HintField + digits + space2 + "}" + rest;
      var j := |HintOpening| + |space1|;
      var m := j + |HintField| + |digits|;
      var e := m + |space2|;
      && e < |msg|
      && msg[..|HintOpening|] == HintOpening
      && msg[|HintOpening|..j] == space1
      && msg[j..j + |HintField|] == HintField
      && msg[j + |HintField|..m] == digits
      && msg[m..e] == space2
      && msg[e] == '}'
  {
  }

  /** The service's own form "retry_delay { seconds: N }", with any spacing
      inside the braces, is read back as N. */
  lemma HintRoundTrip(n: nat, space1: string, space2: string, rest: string)
    requires AllSpace(space1) && AllSpace(space2)
    ensures RetryDelayHint(HintOpening + space1 + HintField + NatToString(n) + space2 + "}" + rest) == Some(n)
  {
    var digits := NatToString(n);
    var msg := HintOpening + space1 + HintField + digits + space2 + "}" + rest;
    var j := |HintOpening| + |space1|;
    var m := j + |HintField| + |digits|;
    var e := m + |space2|;
    HintLayout(space1, digits, space2, rest);
    HintAtStart(msg, j, m, e);
    NatToStringRoundTrip(n);
    HintLeftmost(msg, 0, 0);
  }

  // -----------------------------------------------------------------------
  // The JSON object in a reply
  // -----------------------------------------------------------------------

  /** The first position at or after `i` holding `c`. */
  function IndexFrom(s: string, c: char, i: nat): (r: Option<nat>)
    requires i <= |s|
    ensures r.Some? ==> i <= r.value < |s| && s[r.value] == c && forall t | i <= t < r.value :: s[t] != c
    ensures r.None? ==> forall t | i <= t < |s| :: s[t] != c
    decreases |s| - i
  {
    if i == |s| then None
    else if s[i] == c then Some(i)
    else IndexFrom(s, c, i + 1)
  }

  /** The last position before `n` holding `c`. */
  function LastIndexBefore(s: string, c: char, n: nat): (r: Option<nat>)
    requires n <= |s|
    ensures r.Some? ==> r.value < n && s[r.value] == c && forall t | r.value < t < n :: s[t] != c
    ensures r.None? ==> forall t | 0 <= t < n :: s[t] != c
  {
    if n == 0 then None
    else if s[n - 1] == c then Some(n - 1)
    else LastIndexBefore(s, c, n - 1)
  }

  /** `re.search(r'\{.*\}', reply, re.DOTALL)`: the greedy match runs from
      the first opening brace to the last closing brace after it. */
  function JsonSpan(reply: string): (r: Option<string>)
    ensures r.Some? <==> exists i, j | 0 <= i < j < |reply| :: reply[i] == '{' && reply[j] == '}'
    ensures r.Some? ==> |r.value| >= 2 && r.value[0] == '{' && r.value[|r.value| - 1] == '}'
  {
    match IndexFrom(reply, '{', 0)
    case None => None
    case Some(i) =>
      match LastIndexBefore(reply, '}', |reply|)
      case None => None
      case Some(j) =>
        if i < j then Some(reply[i..j + 1]) else None
  }

  /** A JSON object wrapped in text with no opening brace before it and no
      closing brace after it (prose, code fences) is cut out exactly. */
  lemma JsonSpanOfWrapped(before: string, obj: string, after: string)
    requires |obj| >= 2 && obj[0] == '{' && obj[|obj| - 1] == '}'
    requires forall t | 0 <= t < |before| :: before[t] != '{'
    requires forall t | 0 <= t < |after| :: after[t] != '}'
    ensures JsonSpan(before + obj + after) == Some(obj)
  {
    var reply := before + obj + after;
    var i, j := |before|, |before| + |obj| - 1;
    assert reply[i] == '{' && reply[j] == '}';
    assert forall t | 0 <= t < i :: reply[t] == before[t];
    assert forall t | j < t < |reply| :: reply[t] == after[t - j - 1];
    assert IndexFrom(reply, '{', 0) == Some(i);
    assert LastIndexBefore(reply, '}', |reply|) == Some(j);
    assert reply[i..j + 1] == obj;
  }

  /** The object decoded from a non-empty reply's JSON span, if any. */
  function DecodedReply(reply: Option<string>, decode: string -> Option<JsonObject>): Option<JsonObject> {
    if reply.None? || reply.value == "" then None
    else match JsonSpan(reply.value)
      case None => None
      case Some(span) => decode(span)
  }

  /** The attempts at one prompt. */
  function Attempts(model: (Prompt, nat) -> Attempt, prompt: Prompt): nat -> Attempt {
    (n: nat) => model(prompt, n)
  }

  // -----------------------------------------------------------------------
  // Geography
  // -----------------------------------------------------------------------

  /** `{"eligible": [], "excluded": []}`. */
  const NoGeography: JsonObject := map["eligible" := JList([]), "excluded" := JList([])]

  /** The geography request after the model has answered: the decoded
      object when it names both lists, the empty lists otherwise. */
  function GeoFromReply(reply: Option<string>, decode: string -> Option<JsonObject>): (r: JsonObject)
    ensures "eligible" in r && "excluded" in r
    ensures r == NoGeography || DecodedReply(reply, decode) == Some(r)
    ensures (&& DecodedReply(reply, decode).Some?
             && "eligible" in DecodedReply(reply, decode).value
             && "excluded" in DecodedReply(reply, decode).value)
      ==> DecodedReply(reply, decode) == Some(r)
  {
    match DecodedReply(reply, decode)
    case Some(data) =>
      if "eligible" in data && "excluded" in data then data else NoGeography
    case None => NoGeography
  }

  /** `get_geographic_scope`: without a configured model, the empty lists. */
  function GeographicScope(configured: bool, title: string, text: string,
                           model: (Prompt, nat) -> Attempt, decode: string -> Option<JsonObject>): (r: JsonObject)
    ensures "eligible" in r && "excluded" in r
    ensures !configured ==> r == NoGeography
  {
    if !configured then NoGeography
    else
      var prompt := GeoPrompt(title, Snippet(text, GeoSnippetLength));
      GeoFromReply(RetryFrom(Attempts(model, prompt), 0, Retries, BaseDelay).text, decode)
  }

  method GetGeographicScope(configured: bool, title: string, text: string,
                            model: (Prompt, nat) -> Attempt, decode: string -> Option<JsonObject>) returns (r: JsonObject)
    ensures r == GeographicScope(configured, title, text, model, decode)
  {
    if !configured {
      return NoGeography;
    }
    var prompt := GeoPrompt(title, Snippet(text, GeoSnippetLength));
    var reply, _ := CallWithRetry(Attempts(model, prompt), Retries, BaseDelay);
    r := GeoFromReply(reply, decode);
  }

  /** The geography answer depends on the first 3000 characters of the text
      only. */
  lemma GeographySeesSnippetOnly(configured: bool, title: string, text1: string, text2: string,
                                 model: (Prompt, nat) -> Attempt, decode: string -> Option<JsonObject>)
    requires Snippet(text1, GeoSnippetLength) == Snippet(text2, GeoSnippetLength)
    ensures GeographicScope(configured, title, text1, model, decode) == GeographicScope(configured, title, text2, model, decode)
  {
  }

  // -----------------------------------------------------------------------
  // Enrichment
  // -----------------------------------------------------------------------

  /** A fixed enrichment result: no focus areas, a summary, and one marker
      for the funding amount, the funder and the deadline. */
  function FixedEnrichment(summary: string, marker: string): JsonObject {
    map["focus_areas" := JList([]), "summary" := JStr(summary),
        "funding_amount" := JStr(marker), "funder" := JStr(marker), "deadline" := JStr(marker)]
  }

  const NotConfiguredSummary: string := "AI is not configured."
  const CallFailedSummary: string := "AI call failed after retries."
  const MalformedSummary: string := "AI returned malformed JSON."
  const NoObjectSummary: string := "No JSON object in AI response."

  /** The cap on focus areas (`len(v) > 3`, then `v[:3]`): a string or
      list longer than three is cut to its first three characters or
      items; `len` of a scalar raises TypeError, and so does slicing an
      object with more than three keys. */
  function TruncateFocusAreas(obj: JsonObject): (r: Completion<JsonObject>)
    ensures r.Raised? <==>
      && "focus_areas" in obj
      && (|| obj["focus_areas"].JScalar?
          || (obj["focus_areas"].JObject? && |obj["focus_areas"].entries| > MaxFocusAreas))
    ensures r.Normal? ==> r.value.Keys == obj.Keys
    ensures r.Normal? ==> forall k | k in obj && k != "focus_areas" :: r.value[k] == obj[k]
    ensures r.Normal? && "focus_areas" in obj && !obj["focus_areas"].JObject? ==>
      Take(obj["focus_areas"], MaxFocusAreas) == Normal(r.value["focus_areas"])
    ensures r.Normal? && "focus_areas" in obj && obj["focus_areas"].JObject? ==> r.value == obj
  {
    if "focus_areas" !in obj then Normal(obj)
    else
      var areas := obj["focus_areas"];
      match Length(areas)
      case Raised => Raised
      case Normal(n) =>
        if n > MaxFocusAreas then
          match Take(areas, MaxFocusAreas)
          case Raised => Raised
          case Normal(cut) => Normal(obj["focus_areas" := cut])
        else
          assert !areas.JObject? ==> Take(areas, MaxFocusAreas) == Normal(areas) by {
            if areas.JList? { assert areas.items[..|areas.items|] == areas.items; }
            if areas.JStr? { assert areas.s[..|areas.s|] == areas.s; }
          }
          Normal(obj)
  }

  /** Truncating twice is truncating once. */
  lemma TruncateIdempotent(obj: JsonObject)
    requires TruncateFocusAreas(obj).Normal?
    ensures TruncateFocusAreas(TruncateFocusAreas(obj).value) == TruncateFocusAreas(obj)
  {
    var once := TruncateFocusAreas(obj).value;
    if "focus_areas" in obj && !obj["focus_areas"].JObject? {
      var t := once["focus_areas"];
      assert Length(t).value <= MaxFocusAreas;
      assert t.JList? ==> t.items[..|t.items|] == t.items;
      assert t.JStr? ==> t.s[..|t.s|] == t.s;
    }
  }

  /** The enrichment request after the model has answered. */
  function EnrichmentFromReply(reply: Option<string>, decode: string -> Option<JsonObject>): (r: Completion<JsonObject>)
    ensures reply.None? || reply.value == "" ==> r == Normal(FixedEnrichment(CallFailedSummary, "Error"))
    ensures reply.Some? && reply.value != "" && JsonSpan(reply.value).None? ==>
      r == Normal(FixedEnrichment(NoObjectSummary, "Error"))
    ensures reply.Some? && reply.value != "" && JsonSpan(reply.value).Some? && decode(JsonSpan(reply.value).value).None? ==>
      r == Normal(FixedEnrichment(MalformedSummary, "Error"))
    ensures DecodedReply(reply, decode).Some? ==> r == TruncateFocusAreas(DecodedReply(reply, decode).value)
  {
    if reply.None? || reply.value == "" then Normal(FixedEnrichment(CallFailedSummary, "Error"))
    else match JsonSpan(reply.value)
      case None => Normal(FixedEnrichment(NoObjectSummary, "Error"))
      case Some(span) =>
        match decode(span)
        case None => Normal(FixedEnrichment(MalformedSummary, "Error"))
        case Some(obj) => TruncateFocusAreas(obj)
  }

  /** `get_enrichment_data`: without a configured model, the fixed result
      with "N/A" markers. */
  function Enrichment(configured: bool, title: string, text: string,
                      model: (Prompt, nat) -> Attempt, decode: string -> Option<JsonObject>): (r: Completion<JsonObject>)
    ensures !configured ==> r == Normal(FixedEnrichment(NotConfiguredSummary, "N/A"))
  {
    if !configured then Normal(FixedEnrichment(NotConfiguredSummary, "N/A"))
    else
      var prompt := EnrichmentPrompt(title, Snippet(text, EnrichmentSnippetLength));
      EnrichmentFromReply(RetryFrom(Attempts(model, prompt), 0, Retries, BaseDelay).text, decode)
  }

  method GetEnrichmentData(configured: bool, title: string, text: string,
                           model: (Prompt, nat) -> Attempt, decode: string -> Option<JsonObject>) returns (r: Completion<JsonObject>)
    ensures r == Enrichment(configured, title, text, model, decode)
  {
    if !configured {
      return Normal(FixedEnrichment(NotConfiguredSummary, "N/A"));
    }
    var prompt := EnrichmentPrompt(title, Snippet(text, EnrichmentSnippetLength));
    var reply, _ := CallWithRetry(Attempts(model, prompt), Retries, BaseDelay);
    r := EnrichmentFromReply(reply, decode);
  }

  /** The enrichment answer depends on the first 4000 characters of the
      text only. */
  lemma EnrichmentSeesSnippetOnly(configured: bool, title: string, text1: string, text2: string,
                                  model: (Prompt, nat) -> Attempt, decode: string -> Option<JsonObject>)
    requires Snippet(text1, EnrichmentSnippetLength) == Snippet(text2, EnrichmentSnippetLength)
    ensures Enrichment(configured, title, text1, model, decode) == Enrichment(configured, title, text2, model, decode)
  {
  }
}
