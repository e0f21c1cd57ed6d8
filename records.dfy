/** The values that flow between the pipeline's stages: decoded JSON from
    the language model, scraped records, raw and processed table rows, and
    the status updates of one processor run. */
module Records {
  import opened Common

  /** A JSON value as `json.loads` gives it: a string, a list of values,
      an object (its entries in key order, each key once, as the dict
      holds them), or a scalar (number, true, false, null) kept as the
      text Python's `str` prints for it ("5", "True", "None"). */
  datatype JsonValue =
    | JStr(s: string)
    | JList(items: seq<JsonValue>)
    | JObject(entries: seq<Entry>)
    | JScalar(text: string)

  datatype Entry = Entry(key: string, value: JsonValue)

  /** What `json.loads` returns for a text that starts with `{`. */
  type JsonObject = map<string, JsonValue>

  /** `obj.get(key, default)`. */
  function Get(obj: JsonObject, key: string, default: JsonValue): JsonValue {
    if key in obj then obj[key] else default
  }

  /** `obj.get(key)`: the value, or None when the key is absent. */
  function Field(obj: JsonObject, key: string): (r: Option<JsonValue>)
    ensures r.Some? <==> key in obj
    ensures r.Some? ==> r.value == obj[key]
  {
    if key in obj then Some(obj[key]) else None
  }

  /** The keys of an object, in order. */
  function Keys(entries: seq<Entry>): (r: seq<string>)
    ensures |r| == |entries|
    ensures forall i | 0 <= i < |entries| :: r[i] == entries[i].key
  {
    seq(|entries|, i requires 0 <= i < |entries| => entries[i].key)
  }

  /** `repr(v)` of a value nested in a container: a string in single
      quotes, a list in brackets, an object in braces. */
  function Repr(v: JsonValue): string {
    match v
    case JStr(s) => "'" + s + "'"
    case JScalar(t) => t
    case JList(items) => "[" + Join(seq(|items|, i requires 0 <= i < |items| => Repr(items[i])), ", ") + "]"
    case JObject(entries) =>
      "{" + Join(seq(|entries|, i requires 0 <= i < |entries| => "'" + entries[i].key + "': " + Repr(entries[i].value)), ", ") + "}"
  }

  /** `str(v)`: a string is itself, anything else its `repr`. */
  function Str(v: JsonValue): (r: string)
    ensures v.JStr? ==> r == v.s
    ensures v.JScalar? ==> r == v.text
    ensures v.JList? ==> r != [] && r[0] == '['
    ensures v.JObject? ==> r != [] && r[0] == '{'
  {
    if v.JStr? then v.s else Repr(v)
  }

  /** `[str(g) for g in v]`: a list yields its items, a string its
      characters, an object its keys; iterating a scalar raises
      TypeError. */
  function Items(v: JsonValue): (r: Completion<seq<string>>)
    ensures r.Raised? <==> v.JScalar?
    ensures v.JList? ==>
      && r.Normal? && |r.value| == |v.items|
      && forall i | 0 <= i < |v.items| :: r.value[i] == Str(v.items[i])
    ensures v.JStr? ==> r == Normal(Chars(v.s))
    ensures v.JObject? ==> r == Normal(Keys(v.entries))
  {
    match v
    case JList(items) => Normal(seq(|items|, i requires 0 <= i < |items| => Str(items[i])))
    case JStr(s) => Normal(Chars(s))
    case JObject(entries) => Normal(Keys(entries))
    case JScalar(_) => Raised
  }

  /** A list whose items are all strings. */
  predicate AllStrings(items: seq<JsonValue>) {
    forall i | 0 <= i < |items| :: items[i].JStr?
  }

  /** `sep.join(v)`: the texts iteration yields, joined; it raises
      TypeError for a scalar and for a list holding anything but strings.
      Where it returns, it is the join of the items. */
  function Joined(v: JsonValue, sep: string): (r: Completion<string>)
    ensures r.Raised? <==> v.JScalar? || (v.JList? && !AllStrings(v.items))
    ensures r.Normal? ==> Items(v).Normal? && r.value == Join(Items(v).value, sep)
  {
    match v
    case JList(items) =>
      if AllStrings(items) then
        var texts := seq(|items|, i requires 0 <= i < |items| => items[i].s);
        assert texts == Items(v).value;
        Normal(Join(texts, sep))
      else Raised
    case JStr(s) => Normal(Join(Chars(s), sep))
    case JObject(entries) => Normal(Join(Keys(entries), sep))
    case JScalar(_) => Raised
  }

  /** `len(v)`; a scalar has none and raises TypeError. */
  function Length(v: JsonValue): (r: Completion<nat>)
    ensures r.Raised? <==> v.JScalar?
    ensures r.Normal? ==> Items(v).Normal? && r.value == |Items(v).value|
  {
    match v
    case JStr(s) => Normal(|s|)
    case JList(items) => Normal(|items|)
    case JObject(entries) => Normal(|entries|)
    case JScalar(_) => Raised
  }

  /** `v[:n]`: the first `n` characters of a string or items of a list;
      slicing an object or a scalar raises. */
  function Take(v: JsonValue, n: nat): (r: Completion<JsonValue>)
    ensures r.Normal? <==> v.JStr? || v.JList?
    ensures r.Normal? ==> Length(r.value) == Normal(Min(n, Length(v).value))
    ensures v.JStr? ==> r.Normal? && r.value.JStr? && r.value.s <= v.s
    ensures v.JList? ==> r.Normal? && r.value.JList? && r.value.items <= v.items
  {
    match v
    case JStr(s) => Normal(JStr(s[..Min(n, |s|)]))
    case JList(items) => Normal(JList(items[..Min(n, |items|)]))
    case _ => Raised
  }

  /** `part in v`: a substring test on a string, an equality test on the
      items of a list, a key test on an object; a scalar raises TypeError. */
  function Mentions(v: JsonValue, part: string): (r: Completion<bool>)
    ensures r.Raised? <==> v.JScalar?
    ensures v.JStr? ==> r == Normal(Contains(v.s, part))
    ensures v.JList? ==> r == Normal(JStr(part) in v.items)
    ensures v.JObject? ==> r == Normal(part in Keys(v.entries))
  {
    match v
    case JStr(s) => Normal(Contains(s, part))
    case JList(items) => Normal(JStr(part) in items)
    case JObject(entries) => Normal(part in Keys(entries))
    case JScalar(_) => Raised
  }

  /** A record produced by a fetch adapter. */
  datatype RawRecord = RawRecord(title: string, link: string, source: string, fullText: string)

  function LinkOf(r: RawRecord): string {
    r.link
  }

  datatype Status =
    | PendingAnalysis
    | ProcessedRelevant
    | ProcessedIrrelevant
    | ProcessedAiError
    | ProcessedExpired

  /** A row of the raw table. */
  datatype RawRow = RawRow(record: RawRecord, status: Status)

  /** One entry of the processor's batch: `{'link': ..., 'status': ...}`. */
  datatype StatusUpdate = StatusUpdate(link: string, status: Status)

  function UpdateLinkOf(u: StatusUpdate): string {
    u.link
  }

  /** A row written into the processed table by the analysis of one item.
      Fields copied from the model's reply keep their JSON value (None when
      the key was absent). */
  datatype ProcessedRecord = ProcessedRecord(
    link: string,
    title: string,
    source: string,
    geographicScope: string,
    fundingAmount: Option<JsonValue>,
    funder: Option<JsonValue>,
    deadline: Option<string>,
    rawDeadlineText: Option<JsonValue>,
    focusAreas: string,
    summary: Option<JsonValue>)

  /** A row of the processed table: the record and its `processed_at`
      write time, in seconds. */
  datatype ProcessedRow = ProcessedRow(record: ProcessedRecord, processedAt: int)
}
