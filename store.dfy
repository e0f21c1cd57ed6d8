/** The hosted database of database_manager.py, held in memory: the raw
    table of scraped postings with their analysis status, the processed
    table of accepted postings, and the log of the writes that reached the
    service. A failed request (the client's APIError or any other
    exception) is a `fails` flag: it leaves the tables as they were. */
module Store {
  import opened Common
  import opened Dates
  import opened Records

  /** Rows per request of the link scan. */
  const PageSize: nat := 1000

  /** The raw-deadline texts that mark a posting without a deadline as a
      candidate for the stale sweep. */
  const StaleKeywords: seq<string> := ["Not Specified", "N/A"]

  /** A write request that reached the service. */
  datatype Request =
    | UpsertRaw(batch: seq<RawRecord>)
    | BulkUpdate(updates: seq<StatusUpdate>)
    | UpsertProcessed(record: ProcessedRecord)
    | DeleteExpired(today: string)
    | DeleteStale(cutoff: int)

  // -----------------------------------------------------------------------
  // The raw table
  // -----------------------------------------------------------------------

  function LinkSet(rows: seq<RawRow>): (r: set<string>)
    ensures forall l :: l in r <==> exists i | 0 <= i < |rows| :: rows[i].record.link == l
  {
    set i | 0 <= i < |rows| :: rows[i].record.link
  }

  lemma LinkSetConcat(a: seq<RawRow>, b: seq<RawRow>)
    ensures LinkSet(a + b) == LinkSet(a) + LinkSet(b)
  {
    forall l | l in LinkSet(a + b)
      ensures l in LinkSet(a) + LinkSet(b)
    {
      var i :| 0 <= i < |a + b| && (a + b)[i].record.link == l;
      if i >= |a| {
        assert b[i - |a|].record.link == l;
      }
    }
    forall l | l in LinkSet(a) + LinkSet(b)
      ensures l in LinkSet(a + b)
    {
      if l in LinkSet(a) {
        var i :| 0 <= i < |a| && a[i].record.link == l;
        assert (a + b)[i].record.link == l;
      } else {
        var i :| 0 <= i < |b| && b[i].record.link == l;
        assert (a + b)[|a| + i].record.link == l;
      }
    }
  }

  /** Each link names at most one row. */
  predicate UniqueRawLinks(rows: seq<RawRow>) {
    DistinctBy(rows, RawLinkOf)
  }

  function RawLinkOf(row: RawRow): string {
    row.record.link
  }

  /** The position of the row with link `link`. */
  function RawIndex(rows: seq<RawRow>, link: string): (r: Option<nat>)
    ensures r.Some? ==> r.value < |rows| && rows[r.value].record.link == link
    ensures r.None? <==> link !in LinkSet(rows)
  {
    if rows == [] then None
    else if rows[|rows| - 1].record.link == link then Some(|rows| - 1)
    else
      var r := RawIndex(rows[..|rows| - 1], link);
      assert LinkSet(rows) == LinkSet(rows[..|rows| - 1]) + {rows[|rows| - 1].record.link} by {
        LinkSetConcat(rows[..|rows| - 1], [rows[|rows| - 1]]);
        assert rows == rows[..|rows| - 1] + [rows[|rows| - 1]];
      }
      r
  }

  /** The status stored for a link, if the link is in the table. */
  function StatusOf(rows: seq<RawRow>, link: string): Option<Status> {
    match RawIndex(rows, link)
    case None => None
    case Some(i) => Some(rows[i].status)
  }

  /** Upserting one scraped record: an existing row with its link takes the
      new fields and keeps its status; a new link is added as pending. */
  function UpsertRawRow(rows: seq<RawRow>, rec: RawRecord): seq<RawRow> {
    match RawIndex(rows, rec.link)
    case Some(i) => rows[i := RawRow(rec, rows[i].status)]
    case None => rows + [RawRow(rec, PendingAnalysis)]
  }

  /** Upserting a batch, one record after the other. */
  function UpsertRawRows(rows: seq<RawRow>, batch: seq<RawRecord>): seq<RawRow>
    decreases |batch|
  {
    if batch == [] then rows else UpsertRawRows(UpsertRawRow(rows, batch[0]), batch[1..])
  }

  function BatchLinks(batch: seq<RawRecord>): (r: set<string>)
    ensures forall l :: l in r <==> exists i | 0 <= i < |batch| :: batch[i].link == l
  {
    set i | 0 <= i < |batch| :: batch[i].link
  }

  /** The position found for a link depends on the links alone. */
  lemma {:induction false} RawIndexSameLinks(a: seq<RawRow>, b: seq<RawRow>, link: string)
    requires |a| == |b| && forall k | 0 <= k < |a| :: a[k].record.link == b[k].record.link
    ensures RawIndex(a, link) == RawIndex(b, link)
    decreases |a|
  {
    if a != [] && a[|a| - 1].record.link != link {
      RawIndexSameLinks(a[..|a| - 1], b[..|b| - 1], link);
    }
  }

  /** One upsert keeps the links unique and adds the record's link. */
  lemma UpsertRawRowLinks(rows: seq<RawRow>, rec: RawRecord)
    ensures LinkSet(UpsertRawRow(rows, rec)) == LinkSet(rows) + {rec.link}
    ensures UniqueRawLinks(rows) ==> UniqueRawLinks(UpsertRawRow(rows, rec))
  {
    var after := UpsertRawRow(rows, rec);
    match RawIndex(rows, rec.link)
    case Some(i) =>
      assert forall k | 0 <= k < |rows| :: after[k].record.link == rows[k].record.link;
      assert LinkSet(after) == LinkSet(rows);
    case None =>
      var single := [RawRow(rec, PendingAnalysis)];
      LinkSetConcat(rows, single);
      assert single[0].record.link == rec.link;
      assert LinkSet(single) == {rec.link};
  }

  /** One upsert changes no status: an existing link keeps its own, and
      the record's link, when new, is pending. */
  lemma UpsertRawRowStatus(rows: seq<RawRow>, rec: RawRecord, l: string)
    ensures StatusOf(UpsertRawRow(rows, rec), l) ==
      (if l in LinkSet(rows) then StatusOf(rows, l) else if l == rec.link then Some(PendingAnalysis) else None)
  {
    var after := UpsertRawRow(rows, rec);
    UpsertRawRowLinks(rows, rec);
    match RawIndex(rows, rec.link)
    case Some(i) =>
      RawIndexSameLinks(after, rows, l);
    case None =>
      if l == rec.link {
        assert RawIndex(after, l) == Some(|rows|);
      } else {
        assert after[..|after| - 1] == rows;
      }
  }

  lemma BatchLinksCons(batch: seq<RawRecord>)
    requires batch != []
    ensures BatchLinks(batch) == {batch[0].link} + BatchLinks(batch[1..])
  {
    forall l | l in BatchLinks(batch) ensures l in {batch[0].link} + BatchLinks(batch[1..]) {
      var i :| 0 <= i < |batch| && batch[i].link == l;
      if i > 0 { assert batch[1..][i - 1].link == l; }
    }
  }

  lemma BatchLinksAppend(batch: seq<RawRecord>, rec: RawRecord)
    ensures BatchLinks(batch + [rec]) == BatchLinks(batch) + {rec.link}
  {
    assert (batch + [rec])[|batch|] == rec;
    forall l | l in BatchLinks(batch) ensures l in BatchLinks(batch + [rec]) {
      var i :| 0 <= i < |batch| && batch[i].link == l;
      assert (batch + [rec])[i] == batch[i];
    }
  }

  /** `add_raw_opportunities`' upsert: afterwards the table holds the old
      links and the batch's links, each once. */
  lemma {:induction false} UpsertRawRowsLinks(rows: seq<RawRow>, batch: seq<RawRecord>)
    ensures LinkSet(UpsertRawRows(rows, batch)) == LinkSet(rows) + BatchLinks(batch)
    ensures UniqueRawLinks(rows) ==> UniqueRawLinks(UpsertRawRows(rows, batch))
    decreases |batch|
  {
    if batch != [] {
      UpsertRawRowLinks(rows, batch[0]);
      UpsertRawRowsLinks(UpsertRawRow(rows, batch[0]), batch[1..]);
      BatchLinksCons(batch);
    }
  }

  /** `add_raw_opportunities`' upsert changes no analysis status: a link
      already present keeps its status and a new one is pending. */
  lemma {:induction false} UpsertRawRowsStatus(rows: seq<RawRow>, batch: seq<RawRecord>, l: string)
    ensures StatusOf(UpsertRawRows(rows, batch), l) ==
      (if l in LinkSet(rows) then StatusOf(rows, l) else if l in BatchLinks(batch) then Some(PendingAnalysis) else None)
    decreases |batch|
  {
    if batch != [] {
      var next := UpsertRawRow(rows, batch[0]);
      UpsertRawRowLinks(rows, batch[0]);
      UpsertRawRowStatus(rows, batch[0], l);
      UpsertRawRowsStatus(next, batch[1..], l);
      BatchLinksCons(batch);
    }
  }

  /** The rows a scan page holds: positions `page * 1000` to
      `page * 1000 + 999`, as far as the table reaches. */
  function PageOf(rows: seq<RawRow>, page: nat): seq<RawRow> {
    rows[Min(|rows|, page * PageSize)..Min(|rows|, (page + 1) * PageSize)]
  }

  /** The number of non-empty pages. */
  function PageCount(rows: seq<RawRow>): nat {
    (|rows| + PageSize - 1) / PageSize
  }

  /** Page `page` is non-empty exactly when it comes before the page
      count. */
  lemma PageWithinCount(rows: seq<RawRow>, page: nat)
    ensures page < PageCount(rows) <==> page * PageSize < |rows|
  {
    var n := |rows| + PageSize - 1;
    var q := n / PageSize;
    assert n == PageSize * q + n % PageSize;
  }

  /** The inclusive row range asked for by page `page`. */
  function PageRange(page: nat): (nat, nat) {
    (page * PageSize, (page + 1) * PageSize - 1)
  }

  /** The scan's ranges tile the table: each starts right after the
      previous one ends, and each holds 1000 rows. */
  lemma PageRangesTile(page: nat)
    ensures PageRange(page).1 - PageRange(page).0 + 1 == PageSize
    ensures PageRange(page + 1).0 == PageRange(page).1 + 1
  {
  }

  /** The links the scan returns when request number `failAt` fails: all
      of them when no request fails before the empty page, otherwise those
      of the pages before the failing one. */
  function ScannedLinks(rows: seq<RawRow>, failAt: Option<nat>): set<string> {
    if failAt.None? || failAt.value > PageCount(rows) then LinkSet(rows)
    else LinkSet(rows[..Min(|rows|, failAt.value * PageSize)])
  }

  /** The scanned prefix grows by one page at a time. */
  lemma ScanStep(rows: seq<RawRow>, page: nat)
    ensures LinkSet(rows[..Min(|rows|, (page + 1) * PageSize)]) ==
      LinkSet(rows[..Min(|rows|, page * PageSize)]) + LinkSet(PageOf(rows, page))
  {
    LinkSetConcat(rows[..Min(|rows|, page * PageSize)], PageOf(rows, page));
    assert rows[..Min(|rows|, page * PageSize)] + PageOf(rows, page) == rows[..Min(|rows|, (page + 1) * PageSize)];
  }

  /** The links of one page of the scan, gathered row by row. */
  method PageLinks(data: seq<RawRow>) returns (links: set<string>)
    ensures links == LinkSet(data)
  {
    links := {};
    for k := 0 to |data|
      invariant links == LinkSet(data[..k])
    {
      links := links + {data[k].record.link};
      LinkSetConcat(data[..k], [data[k]]);
      assert data[..k + 1] == data[..k] + [data[k]];
    }
    assert data[..|data|] == data;
  }

  /** A failed scan returns a part of the table's links, never a link the
      table does not hold. */
  lemma ScannedLinksSubset(rows: seq<RawRow>, failAt: Option<nat>)
    ensures ScannedLinks(rows, failAt) <= LinkSet(rows)
    ensures failAt.None? ==> ScannedLinks(rows, failAt) == LinkSet(rows)
  {
    if failAt.Some? && failAt.value <= PageCount(rows) {
      var n := Min(|rows|, failAt.value * PageSize);
      LinkSetConcat(rows[..n], rows[n..]);
      assert rows == rows[..n] + rows[n..];
    }
  }

  /** The rows the status filter selects: pending analysis. */
  predicate IsPendingRow(row: RawRow) {
    row.status == PendingAnalysis
  }

  function PendingRows(rows: seq<RawRow>): (r: seq<RawRow>)
    ensures forall i | 0 <= i < |r| :: r[i] in rows && r[i].status == PendingAnalysis
    ensures forall i | 0 <= i < |rows| :: rows[i].status == PendingAnalysis ==> rows[i] in r
    ensures IsSubsequence(r, rows)
  {
    Filter(rows, IsPendingRow)
  }

  /** The pending rows of a table with unique links have unique links. */
  lemma PendingRowsUnique(rows: seq<RawRow>)
    requires UniqueRawLinks(rows)
    ensures UniqueRawLinks(PendingRows(rows))
  {
    SubsequenceDistinct(PendingRows(rows), rows, RawLinkOf);
  }

  /** The status a batch gives a link: that of the link's last entry. */
  function LastStatusFor(updates: seq<StatusUpdate>, link: string): Option<Status> {
    if updates == [] then None
    else if updates[|updates| - 1].link == link then Some(updates[|updates| - 1].status)
    else LastStatusFor(updates[..|updates| - 1], link)
  }

  /** A batch without an entry for a link gives it no status. */
  lemma {:induction false} LastStatusAbsent(updates: seq<StatusUpdate>, link: string)
    requires forall i | 0 <= i < |updates| :: updates[i].link != link
    ensures LastStatusFor(updates, link) == None
    decreases |updates|
  {
    if updates != [] {
      LastStatusAbsent(updates[..|updates| - 1], link);
    }
  }

  function SetStatus(rows: seq<RawRow>, u: StatusUpdate): (r: seq<RawRow>)
    ensures |r| == |rows|
    ensures forall i | 0 <= i < |rows| :: r[i].record == rows[i].record
    ensures forall i | 0 <= i < |rows| ::
      r[i].status == (if rows[i].record.link == u.link then u.status else rows[i].status)
  {
    seq(|rows|, i requires 0 <= i < |rows| =>
      if rows[i].record.link == u.link then RawRow(rows[i].record, u.status) else rows[i])
  }

  /** The stored procedure behind the bulk update, taken as setting each
      entry's status on the row with its link, entry after entry. */
  function ApplyStatusUpdates(rows: seq<RawRow>, updates: seq<StatusUpdate>): (r: seq<RawRow>)
    ensures |r| == |rows|
    decreases |updates|
  {
    if updates == [] then rows
    else SetStatus(ApplyStatusUpdates(rows, updates[..|updates| - 1]), updates[|updates| - 1])
  }

  /** After the bulk update each row keeps its record, and its status is
      that of the last entry for its link, or the old one when the batch
      does not name it. */
  lemma {:induction false} ApplyStatusUpdatesEffect(rows: seq<RawRow>, updates: seq<StatusUpdate>)
    ensures |ApplyStatusUpdates(rows, updates)| == |rows|
    ensures forall i | 0 <= i < |rows| ::
      && ApplyStatusUpdates(rows, updates)[i].record == rows[i].record
      && ApplyStatusUpdates(rows, updates)[i].status ==
         (match LastStatusFor(updates, rows[i].record.link)
          case Some(st) => st
          case None => rows[i].status)
    decreases |updates|
  {
    if updates != [] {
      ApplyStatusUpdatesEffect(rows, updates[..|updates| - 1]);
    }
  }

  // -----------------------------------------------------------------------
  // The processed table
  // -----------------------------------------------------------------------

  predicate UniqueProcessedLinks(rows: seq<ProcessedRow>) {
    DistinctBy(rows, ProcessedLinkOf)
  }

  function ProcessedLinkOf(row: ProcessedRow): string {
    row.record.link
  }

  function ProcessedIndex(rows: seq<ProcessedRow>, link: string): (r: Option<nat>)
    ensures r.Some? ==> r.value < |rows| && rows[r.value].record.link == link
    ensures r.None? ==> forall i | 0 <= i < |rows| :: rows[i].record.link != link
  {
    if rows == [] then None
    else if rows[|rows| - 1].record.link == link then Some(|rows| - 1)
    else ProcessedIndex(rows[..|rows| - 1], link)
  }

  /** Upserting an accepted posting: a new link is added with the write
      time; an existing one takes the new fields and keeps its time. */
  function UpsertProcessedRow(rows: seq<ProcessedRow>, rec: ProcessedRecord, now: int): (r: seq<ProcessedRow>)
    ensures UniqueProcessedLinks(rows) ==> UniqueProcessedLinks(r)
    ensures exists i | 0 <= i < |r| :: r[i].record == rec
    ensures forall i | 0 <= i < |rows| && rows[i].record.link != rec.link :: rows[i] in r
    ensures (forall i | 0 <= i < |rows| :: rows[i].record.link != rec.link) ==> r == rows + [ProcessedRow(rec, now)]
    ensures (exists i | 0 <= i < |rows| :: rows[i].record.link == rec.link) ==> |r| == |rows|
    ensures UniqueProcessedLinks(rows) ==>
      forall i | 0 <= i < |rows| ::
        r[i] == if rows[i].record.link == rec.link then ProcessedRow(rec, rows[i].processedAt) else rows[i]
  {
    match ProcessedIndex(rows, rec.link)
    case Some(i) =>
      var r := rows[i := ProcessedRow(rec, rows[i].processedAt)];
      assert r[i].record == rec;
      assert forall k | 0 <= k < |rows| && k != i :: r[k] == rows[k];
      r
    case None =>
      var r := rows + [ProcessedRow(rec, now)];
      assert r[|rows|].record == rec;
      assert forall k | 0 <= k < |rows| :: r[k] == rows[k];
      r
  }

  /** The expiry test: a stored deadline earlier, as text, than today's
      "YYYY-MM-DD"; a row without a deadline never matches. */
  predicate IsExpired(row: ProcessedRow, today: string) {
    row.record.deadline.Some? && LexLess(row.record.deadline.value, today)
  }

  /** The stale test: no deadline, a raw deadline text of exactly
      "Not Specified" or "N/A", and written before the cutoff. */
  predicate IsStale(row: ProcessedRow, cutoff: int) {
    && row.record.deadline.None?
    && row.record.rawDeadlineText.Some?
    && row.record.rawDeadlineText.value.JStr?
    && row.record.rawDeadlineText.value.s in StaleKeywords
    && row.processedAt < cutoff
  }

  function WithoutExpired(rows: seq<ProcessedRow>, today: string): (r: seq<ProcessedRow>)
    ensures forall i | 0 <= i < |r| :: r[i] in rows && !IsExpired(r[i], today)
    ensures forall i | 0 <= i < |rows| :: !IsExpired(rows[i], today) ==> rows[i] in r
    ensures IsSubsequence(r, rows)
  {
    Filter(rows, row => !IsExpired(row, today))
  }

  function WithoutStale(rows: seq<ProcessedRow>, cutoff: int): (r: seq<ProcessedRow>)
    ensures forall i | 0 <= i < |r| :: r[i] in rows && !IsStale(r[i], cutoff)
    ensures forall i | 0 <= i < |rows| :: !IsStale(rows[i], cutoff) ==> rows[i] in r
    ensures IsSubsequence(r, rows)
  {
    Filter(rows, row => !IsStale(row, cutoff))
  }

  /** A second expiry sweep on the same day deletes nothing. */
  lemma ExpirySweepIdempotent(rows: seq<ProcessedRow>, today: string)
    ensures WithoutExpired(WithoutExpired(rows, today), today) == WithoutExpired(rows, today)
  {
    FilterIdempotent(rows, row => !IsExpired(row, today));
  }

  /** A second stale sweep with the same cutoff deletes nothing. */
  lemma StaleSweepIdempotent(rows: seq<ProcessedRow>, cutoff: int)
    ensures WithoutStale(WithoutStale(rows, cutoff), cutoff) == WithoutStale(rows, cutoff)
  {
    FilterIdempotent(rows, row => !IsStale(row, cutoff));
  }

  /** For deadlines stored as "YYYY-MM-DD", the text comparison of the
      expiry sweep is the date comparison: a row expires exactly when its
      deadline is before today. */
  lemma ExpiredIffBefore(row: ProcessedRow, deadline: CalendarDate, today: CalendarDate)
    requires row.record.deadline == Some(FormatIso(deadline))
    ensures IsExpired(row, FormatIso(today)) <==> Before(deadline, today)
  {
    FormatOrder(deadline, today);
  }

  /** A posting whose raw deadline text is "Rolling" is never stale. */
  lemma RollingNeverStale(row: ProcessedRow, cutoff: int)
    requires row.record.rawDeadlineText == Some(JStr("Rolling"))
    ensures !IsStale(row, cutoff)
  {
    assert StaleKeywords[0] != "Rolling" && StaleKeywords[1] != "Rolling";
  }

  // -----------------------------------------------------------------------
  // The client
  // -----------------------------------------------------------------------

  class Database {
    /** Whether the client was created (credentials present). */
    const connected: bool
    var raw: seq<RawRow>
    var processed: seq<ProcessedRow>
    var writes: seq<Request>

    ghost predicate Valid()
      reads this
    {
      UniqueRawLinks(raw) && UniqueProcessedLinks(processed)
    }

    constructor (connected: bool, raw: seq<RawRow>, processed: seq<ProcessedRow>)
      requires UniqueRawLinks(raw) && UniqueProcessedLinks(processed)
      ensures Valid()
      ensures this.connected == connected && this.raw == raw && this.processed == processed && writes == []
    {
      this.connected := connected;
      this.raw := raw;
      this.processed := processed;
      writes := [];
    }

    /** `add_raw_opportunities`: no client or an empty batch returns 0
        without a request; otherwise one upsert, returning the batch size,
        or 0 when the request fails. */
    method AddRawOpportunities(batch: seq<RawRecord>, fails: bool) returns (count: nat)
      requires Valid()
      modifies this
      ensures Valid() && processed == old(processed)
      ensures !connected || batch == [] ==> count == 0 && raw == old(raw) && writes == old(writes)
      ensures connected && batch != [] ==> writes == old(writes) + [UpsertRaw(batch)]
      ensures connected && batch != [] && fails ==> count == 0 && raw == old(raw)
      ensures connected && batch != [] && !fails ==> count == |batch| && raw == UpsertRawRows(old(raw), batch)
    {
      if !connected || batch == [] {
        return 0;
      }
      writes := writes + [UpsertRaw(batch)];
      if fails {
        return 0;
      }
      UpsertRawRowsLinks(raw, batch);
      raw := UpsertRawRows(raw, batch);
      count := |batch|;
    }

    /** `get_all_scraped_links`: pages of 1000 rows are requested in order
        until one comes back empty; the links seen are returned, and when
        request number `failAt` fails, the links of the earlier pages. */
    method GetAllScrapedLinks(failAt: Option<nat>) returns (links: set<string>, requested: seq<(nat, nat)>)
      ensures !connected ==> links == {} && requested == []
      ensures connected ==> forall p | 0 <= p < |requested| :: requested[p] == PageRange(p)
      ensures connected ==> links == ScannedLinks(raw, failAt)
      ensures connected && (failAt.None? || failAt.value > PageCount(raw)) ==> |requested| == PageCount(raw) + 1
      ensures connected && failAt.Some? && failAt.value <= PageCount(raw) ==> |requested| == failAt.value + 1
    {
      links := {};
      requested := [];
      if !connected {
        return;
      }
      var page := 0;
      while true
        invariant page <= PageCount(raw)
        invariant failAt.Some? ==> page <= failAt.value
        invariant links == LinkSet(raw[..Min(|raw|, page * PageSize)])
        invariant |requested| == page && forall p | 0 <= p < page :: requested[p] == PageRange(p)
        decreases PageCount(raw) - page
      {
        requested := requested + [PageRange(page)];
        if failAt == Some(page) {
          return;
        }
        var data := PageOf(raw, page);
        PageWithinCount(raw, page);
        if data == [] {
          assert raw[..Min(|raw|, page * PageSize)] == raw;
          break;
        }
        var pageLinks := PageLinks(data);
        links := links + pageLinks;
        ScanStep(raw, page);
        page := page + 1;
      }
    }

    /** `get_pending_opportunities`: the rows pending analysis, or none
        without a client or when the request fails. */
    method GetPendingOpportunities(fails: bool) returns (rows: seq<RawRow>)
      ensures !connected || fails ==> rows == []
      ensures connected && !fails ==> rows == PendingRows(raw)
    {
      if !connected || fails {
        return [];
      }
      rows := PendingRows(raw);
    }

    /** `bulk_update_raw_opportunity_statuses`: no request for an empty
        batch; otherwise exactly one request carrying the whole batch. */
    method BulkUpdateStatuses(updates: seq<StatusUpdate>, fails: bool)
      requires Valid()
      modifies this
      ensures Valid() && processed == old(processed)
      ensures !connected || updates == [] ==> raw == old(raw) && writes == old(writes)
      ensures connected && updates != [] ==> writes == old(writes) + [BulkUpdate(updates)]
      ensures connected && updates != [] ==> raw == (if fails then old(raw) else ApplyStatusUpdates(old(raw), updates))
    {
      if !connected || updates == [] {
        return;
      }
      writes := writes + [BulkUpdate(updates)];
      if !fails {
        ApplyStatusUpdatesEffect(raw, updates);
        raw := ApplyStatusUpdates(raw, updates);
      }
    }

    /** `add_processed_opportunity`: one upsert, stamped with `now` when the
        link is new. */
    method AddProcessedOpportunity(rec: ProcessedRecord, now: int, fails: bool)
      requires Valid()
      modifies this
      ensures Valid() && raw == old(raw)
      ensures !connected ==> processed == old(processed) && writes == old(writes)
      ensures connected ==> writes == old(writes) + [UpsertProcessed(rec)]
      ensures connected ==> processed == (if fails then old(processed) else UpsertProcessedRow(old(processed), rec, now))
    {
      if !connected {
        return;
      }
      writes := writes + [UpsertProcessed(rec)];
      if !fails {
        processed := UpsertProcessedRow(processed, rec, now);
      }
    }

    /** `delete_expired_opportunities`: deletes the rows whose deadline is
        before today's UTC date. */
    method DeleteExpiredOpportunities(today: CalendarDate, fails: bool)
      requires Valid()
      modifies this
      ensures Valid() && raw == old(raw)
      ensures !connected ==> processed == old(processed) && writes == old(writes)
      ensures connected ==> writes == old(writes) + [DeleteExpired(FormatIso(today))]
      ensures connected ==> processed == (if fails then old(processed) else WithoutExpired(old(processed), FormatIso(today)))
    {
      if !connected {
        return;
      }
      var todayText := FormatIso(today);
      writes := writes + [DeleteExpired(todayText)];
      if !fails {
        SubsequenceDistinct(WithoutExpired(processed, todayText), processed, ProcessedLinkOf);
        processed := WithoutExpired(processed, todayText);
      }
    }

    /** `delete_stale_opportunities`: deletes the stale rows written before
        `threshold` months ago; `monthsBefore` stands for the calendar
        month arithmetic. */
    method DeleteStaleOpportunities(threshold: nat, now: int, monthsBefore: (int, nat) -> int, fails: bool)
      requires Valid()
      modifies this
      ensures Valid() && raw == old(raw)
      ensures !connected ==> processed == old(processed) && writes == old(writes)
      ensures connected ==> writes == old(writes) + [DeleteStale(monthsBefore(now, threshold))]
      ensures connected ==>
        processed == (if fails then old(processed) else WithoutStale(old(processed), monthsBefore(now, threshold)))
    {
      if !connected {
        return;
      }
      var cutoff := monthsBefore(now, threshold);
      writes := writes + [DeleteStale(cutoff)];
      if !fails {
        SubsequenceDistinct(WithoutStale(processed, cutoff), processed, ProcessedLinkOf);
        processed := WithoutStale(processed, cutoff);
      }
    }
  }
}
