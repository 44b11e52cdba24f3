/** The incremental sync of backend/src/ingestion/syncService.js: read the module's
    cursor (or fall back to a day ago), fetch every record Zoho reports as modified
    since then, map the records to rows with defaults, de-duplicate them by id, upsert
    them, and move the cursor to the latest `Modified_Time` fetched. The store is an
    explicit `Store` value; each store call's success or failure is a parameter. */
module SyncService {
  import opened Wrappers
  import opened Text
  import opened Tally
  import opened Records
  import opened KeyedRows
  import IsoTime
  import ZohoClient

  // ---------------------------------------------------------------------------
  // Cursors (`sync_state`)
  // ---------------------------------------------------------------------------

  datatype SyncModule = Leads | Deals

  function ModuleName(m: SyncModule): string {
    match m
    case Leads => "Leads"
    case Deals => "Deals"
  }

  /** `sync_state`: the cursor of each module, as stored text and the instant it denotes. */
  type CursorTable = map<SyncModule, Stamp>

  /** The cursor used when none can be read: 24 hours before `now`, written by
      `toISOString` with the milliseconds cut off. */
  function FallbackCursor(now: Instant): (c: Stamp)
    ensures c.at % MsPerSecond == 0
    ensures c.at <= now - MsPerDay < c.at + MsPerSecond
    ensures c.text == IsoTime.IsoDateTime(c.at) + "Z"
  {
    var t := now - MsPerDay;
    IsoTime.WholeSecondSameText(t);
    IsoTime.WholeSecondBounds(t);
    Stamp(IsoTime.IsoSeconds(t), t - t % MsPerSecond)
  }

  /** `getLastSyncTime`: the stored cursor, or the fallback when the read fails or finds
      no row for the module. */
  function LastSyncTime(cursors: CursorTable, read: Outcome<string>, m: SyncModule, now: Instant): (c: Stamp)
    ensures read.Pass? && m in cursors ==> c == cursors[m]
    ensures read.Fail? || m !in cursors ==> c == FallbackCursor(now)
  {
    if read.Fail? || m !in cursors then FallbackCursor(now) else cursors[m]
  }

  /** `setLastSyncTime`: an upsert whose error the source never looks at, so a failed
      write leaves the table as it was and is not reported. */
  function SetLastSyncTime(cursors: CursorTable, m: SyncModule, c: Stamp, write: Outcome<string>)
    : (r: CursorTable)
    ensures write.Pass? ==> r == cursors[m := c]
    ensures write.Fail? ==> r == cursors
  {
    if write.Pass? then cursors[m := c] else cursors
  }

  /** The cursor `resetSyncCursors` writes: 2026-02-17T00:00:00Z. */
  const ResetCursor: Stamp := Stamp("2026-02-17T00:00:00Z", 1771286400000)

  /** The reset cursor's text is the ISO form of its instant, to the second. */
  lemma ResetCursorConsistent()
    ensures IsoTime.IsoSeconds(ResetCursor.at) == ResetCursor.text
  {
    IsoTime.Feb17Text();
  }

  /** `resetSyncCursors`: both cursors back to the reset date (an unchecked upsert). */
  function ResetSyncCursors(cursors: CursorTable, write: Outcome<string>): (r: CursorTable)
    ensures write.Pass? ==> r.Keys == cursors.Keys + {Leads, Deals}
    ensures write.Pass? ==> r[Leads] == ResetCursor && r[Deals] == ResetCursor
    ensures write.Fail? ==> r == cursors
  {
    if write.Pass? then cursors[Leads := ResetCursor][Deals := ResetCursor] else cursors
  }

  // ---------------------------------------------------------------------------
  // Record mapping
  // ---------------------------------------------------------------------------

  /** A lookup field such as `Owner` or `Lead_Name`. */
  datatype ZohoRef = ZohoRef(name: Option<string>, id: Option<string>)

  /** A Lead as the search API returns it. */
  datatype ZohoLead = ZohoLead(
    id: string,
    owner: Option<ZohoRef>,
    leadStatus: Option<string>,
    leadSource: Option<string>,
    createdTime: Option<Stamp>,
    modifiedTime: Stamp,
    isConverted: Option<bool>)

  /** A Deal as the search API returns it; `amount` is the numeric `Amount` or null. */
  datatype ZohoDeal = ZohoDeal(
    id: string,
    leadName: Option<ZohoRef>,
    dealName: Option<string>,
    owner: Option<ZohoRef>,
    stage: Option<string>,
    leadSource: Option<string>,
    amount: Option<real>,
    createdTime: Option<Stamp>,
    modifiedTime: Stamp)

  /** `x || fallback` on a string that may be missing. */
  function OrDefault(x: Option<string>, fallback: string): (r: string)
    ensures r == fallback <==> x.None? || x.value == "" || x.value == fallback
    ensures r != fallback ==> x == Some(r)
  {
    if x.Some? && x.value != "" then x.value else fallback
  }

  /** `ref?.name` / `ref?.id`. */
  function RefName(ref: Option<ZohoRef>): Option<string> {
    if ref.Some? then ref.value.name else None
  }

  function RefId(ref: Option<ZohoRef>): Option<string> {
    if ref.Some? then ref.value.id else None
  }

  /** The row `syncLeads` writes for a Lead. */
  function MapLead(l: ZohoLead): (row: LeadRow)
    ensures row.leadId == l.id
    ensures row.ownerName == Some(OrDefault(RefName(l.owner), "Unknown"))
    ensures row.status == Some(OrDefault(l.leadStatus, "Unknown"))
    ensures row.source == Some(OrDefault(l.leadSource, "Unknown"))
    ensures row.createdTime == l.createdTime && row.modifiedTime == Some(l.modifiedTime)
    ensures row.isConverted == Some(true) <==> l.isConverted == Some(true)
    ensures row.isConverted.Some?
  {
    LeadRow(
      leadId := l.id,
      ownerName := Some(OrDefault(RefName(l.owner), "Unknown")),
      status := Some(OrDefault(l.leadStatus, "Unknown")),
      source := Some(OrDefault(l.leadSource, "Unknown")),
      createdTime := l.createdTime,
      modifiedTime := Some(l.modifiedTime),
      isConverted := Some(l.isConverted.GetOr(false)))
  }

  /** `Stage.includes('Closed')`, case-sensitive, on a present non-empty stage. */
  predicate ClosedStage(stage: Option<string>) {
    stage.Some? && stage.value != "" && Contains(stage.value, "Closed")
  }

  /** The row `syncDeals` writes for a Deal. */
  function MapDeal(d: ZohoDeal): (row: DealRow)
    ensures row.dealId == d.id
    ensures row.leadId == (if RefId(d.leadName).Some? && RefId(d.leadName).value != "" then RefId(d.leadName) else None)
    ensures row.dealName == d.dealName
    ensures row.ownerName == Some(OrDefault(RefName(d.owner), "Unknown"))
    ensures row.stage == Some(OrDefault(d.stage, "Unknown"))
    ensures row.source == Some(OrDefault(d.leadSource, "Unknown"))
    ensures row.createdTime == d.createdTime && row.modifiedTime == Some(d.modifiedTime)
    ensures row.amount == Some(if d.amount.Some? then d.amount.value else 0.0)
    ensures row.closedTime.Some? <==> ClosedStage(d.stage)
    ensures row.closedTime.Some? ==> row.closedTime == row.modifiedTime == Some(d.modifiedTime)
  {
    DealRow(
      dealId := d.id,
      leadId := if RefId(d.leadName).Some? && RefId(d.leadName).value != "" then RefId(d.leadName) else None,
      dealName := d.dealName,
      ownerName := Some(OrDefault(RefName(d.owner), "Unknown")),
      stage := Some(OrDefault(d.stage, "Unknown")),
      source := Some(OrDefault(d.leadSource, "Unknown")),
      amount := Some(d.amount.GetOr(0.0)),
      createdTime := d.createdTime,
      modifiedTime := Some(d.modifiedTime),
      closedTime := if ClosedStage(d.stage) then Some(d.modifiedTime) else None)
  }

  /** The Deal's stage is kept verbatim when present: a stage written "closed won" in
      lower case gets no `closed_time`, although its stored stage contains "Closed" in
      no case-sensitive sense and "closed won" in the case-insensitive one. */
  lemma LowerCaseClosedHasNoClosedTime(d: ZohoDeal)
    requires d.stage == Some("closed won")
    ensures MapDeal(d).closedTime.None?
    ensures MapDeal(d).stage == Some("closed won")
  {
    var s := "closed won";
    assert forall i | 0 <= i < |s| :: s[i] != 'C';
    AbsentInitialNotContained(s, "Closed");
  }

  // ---------------------------------------------------------------------------
  // The latest Modified_Time
  // ---------------------------------------------------------------------------

  function StampKey(s: Stamp): real {
    s.at as real
  }

  /** `[...records].sort((a, b) => time(b) - time(a))[0].Modified_Time`: the first stamp
      after sorting latest first. */
  function LatestStamp(stamps: seq<Stamp>): (m: Stamp)
    requires |stamps| > 0
    ensures m in stamps
    ensures forall i :: 0 <= i < |stamps| ==> stamps[i].at <= m.at
  {
    var sorted := SortDesc(stamps, StampKey);
    assert sorted[0] in multiset(sorted);
    forall i | 0 <= i < |stamps|
      ensures stamps[i].at <= sorted[0].at
    {
      assert stamps[i] in multiset(sorted);
      var j :| 0 <= j < |sorted| && sorted[j] == stamps[i];
      if j > 0 {
        assert StampKey(sorted[0]) >= StampKey(sorted[j]);
      }
    }
    sorted[0]
  }

  // ---------------------------------------------------------------------------
  // One module's sync
  // ---------------------------------------------------------------------------

  datatype SyncError = FetchFailed(error: ZohoClient.ZohoError) | UpsertFailed(message: string)

  /** The outcome of syncing one module: the count returned (or the error thrown), the
      module's table and the cursors afterwards, and the cursor the fetch started from. */
  datatype ModuleRun<Row> = ModuleRun(
    result: Result<nat, SyncError>, table: map<string, Row>, cursors: CursorTable, since: Stamp)

  /** The body shared by `syncLeads` and `syncDeals`, given what the paging loop fetched. */
  function RunSync<Raw, Row>(m: SyncModule, cursors: CursorTable, table: map<string, Row>,
                             since: Stamp, fetch: Result<seq<Raw>, ZohoClient.ZohoError>,
                             mapRow: Raw -> Row, rowKey: Row -> string, modified: Raw -> Stamp,
                             upsert: Outcome<string>, cursorWrite: Outcome<string>)
    : (r: ModuleRun<Row>)
    ensures r.since == since
    ensures fetch.Failure? ==> r.result == Failure(FetchFailed(fetch.error))
    ensures fetch == Success([]) ==> r.result == Success(0)
    ensures (fetch.Success? && |fetch.value| > 0 && upsert.Fail?) ==> r.result == Failure(UpsertFailed(upsert.error))
    ensures r.result.Failure? || r.result == Success(0) ==> r.table == table && r.cursors == cursors
    ensures r.result.Success? && r.result.value > 0 ==>
      && fetch.Success? && r.result.value == |fetch.value|
      && r.table == UpsertAll(table, MapSeq(fetch.value, mapRow), rowKey)
      && (cursorWrite.Fail? ==> r.cursors == cursors)
      && (cursorWrite.Pass? ==> r.cursors == cursors[m := LatestStamp(MapSeq(fetch.value, modified))])
  {
    match fetch
    case Failure(e) => ModuleRun(Failure(FetchFailed(e)), table, cursors, since)
    case Success(fetched) =>
      if |fetched| == 0 then ModuleRun(Success(0), table, cursors, since)
      else
        var rows := MapSeq(fetched, mapRow);
        var unique := Dedupe(rows, rowKey);
        if upsert.Fail? then ModuleRun(Failure(UpsertFailed(upsert.error)), table, cursors, since)
        else
          UpsertDedupeSame(table, rows, rowKey);
          var latest := LatestStamp(MapSeq(fetched, modified));
          ModuleRun(Success(|rows|), UpsertAll(table, unique, rowKey),
                    SetLastSyncTime(cursors, m, latest, cursorWrite), since)
  }

  /** The store the two syncs work on. */
  datatype Store = Store(cursors: CursorTable, leads: map<string, LeadRow>, deals: map<string, DealRow>)

  /** A sync's outcome, the store afterwards, the cursor it started from and the search
      requests it sent to Zoho. */
  datatype SyncRun = SyncRun(result: Result<nat, SyncError>, store: Store, since: Stamp,
                             requests: seq<ZohoClient.SearchRequest>)

  function LeadKey(r: LeadRow): string {
    r.leadId
  }

  function DealKey(r: DealRow): string {
    r.dealId
  }

  function LeadModified(l: ZohoLead): Stamp {
    l.modifiedTime
  }

  function DealModified(d: ZohoDeal): Stamp {
    d.modifiedTime
  }

  /** `syncLeads`. */
  function SyncLeads(store: Store, now: Instant, cursorRead: Outcome<string>,
                     replies: seq<ZohoClient.Exchange<ZohoLead>>, upsert: Outcome<string>,
                     cursorWrite: Outcome<string>)
    : (r: SyncRun)
    ensures r.since == LastSyncTime(store.cursors, cursorRead, Leads, now)
    ensures |r.requests| == ZohoClient.PageCount(replies, 1)
    ensures ZohoClient.SearchesFor(r.requests, "Leads", r.since.text)
    ensures r.store.deals == store.deals
    ensures r.result.Failure? || r.result == Success(0) ==> r.store == store
    ensures r.result.Success? ==>
              (ZohoClient.PagesFrom(replies, 1).Success? && r.result.value == |ZohoClient.PagesFrom(replies, 1).value|)
  {
    var since := LastSyncTime(store.cursors, cursorRead, Leads, now);
    var run := RunSync(Leads, store.cursors, store.leads, since, ZohoClient.PagesFrom(replies, 1),
                       MapLead, LeadKey, LeadModified, upsert, cursorWrite);
    SyncRun(run.result, Store(run.cursors, run.table, store.deals), run.since,
            ZohoClient.SearchRequests("Leads", since.text, replies))
  }

  /** `syncDeals`. */
  function SyncDeals(store: Store, now: Instant, cursorRead: Outcome<string>,
                     replies: seq<ZohoClient.Exchange<ZohoDeal>>, upsert: Outcome<string>,
                     cursorWrite: Outcome<string>)
    : (r: SyncRun)
    ensures r.since == LastSyncTime(store.cursors, cursorRead, Deals, now)
    ensures |r.requests| == ZohoClient.PageCount(replies, 1)
    ensures ZohoClient.SearchesFor(r.requests, "Deals", r.since.text)
    ensures r.store.leads == store.leads
    ensures r.result.Failure? || r.result == Success(0) ==> r.store == store
    ensures r.result.Success? ==>
              (ZohoClient.PagesFrom(replies, 1).Success? && r.result.value == |ZohoClient.PagesFrom(replies, 1).value|)
  {
    var since := LastSyncTime(store.cursors, cursorRead, Deals, now);
    var run := RunSync(Deals, store.cursors, store.deals, since, ZohoClient.PagesFrom(replies, 1),
                       MapDeal, DealKey, DealModified, upsert, cursorWrite);
    SyncRun(run.result, Store(run.cursors, store.leads, run.table), run.since,
            ZohoClient.SearchRequests("Deals", since.text, replies))
  }

  /** After a successful lead sync every fetched lead's id is in the table, holding the
      row mapped from the last record fetched with that id. */
  lemma SyncedLeadsStored(store: Store, now: Instant, cursorRead: Outcome<string>,
                          replies: seq<ZohoClient.Exchange<ZohoLead>>, cursorWrite: Outcome<string>, i: nat)
    requires ZohoClient.PagesFrom(replies, 1).Success?
    requires i < |ZohoClient.PagesFrom(replies, 1).value|
    ensures var fetched := ZohoClient.PagesFrom(replies, 1).value;
            var r := SyncLeads(store, now, cursorRead, replies, Pass, cursorWrite);
            && r.result == Success(|fetched|)
            && fetched[i].id in r.store.leads
            && Some(r.store.leads[fetched[i].id]) == LastWithKey(MapSeq(fetched, MapLead), LeadKey, fetched[i].id)
  {
    var fetched := ZohoClient.PagesFrom(replies, 1).value;
    var rows := MapSeq(fetched, MapLead);
    var since := LastSyncTime(store.cursors, cursorRead, Leads, now);
    var run := RunSync(Leads, store.cursors, store.leads, since, ZohoClient.PagesFrom(replies, 1),
                       MapLead, LeadKey, LeadModified, Pass, cursorWrite);
    assert run.result == Success(|fetched|) && run.table == UpsertAll(store.leads, rows, LeadKey);
    var k := fetched[i].id;
    assert MapSeq(rows, LeadKey)[i] == k;
    assert LastWithKey(rows, LeadKey, k).Some?;
  }

  /** A lead sync that fetched records and wrote its cursor leaves the latest stamp fetched
      as the Leads cursor. */
  lemma LeadCursorAdvanced(store: Store, now: Instant, cursorRead: Outcome<string>,
                           replies: seq<ZohoClient.Exchange<ZohoLead>>)
    requires ZohoClient.PagesFrom(replies, 1).Success? && |ZohoClient.PagesFrom(replies, 1).value| > 0
    ensures var r := SyncLeads(store, now, cursorRead, replies, Pass, Pass);
            && Leads in r.store.cursors
            && r.store.cursors[Leads] == LatestStamp(MapSeq(ZohoClient.PagesFrom(replies, 1).value, LeadModified))
  {
  }

  /** `latest` is the `Modified_Time` of one of the leads, and no earlier than any. */
  predicate LatestModified(fetched: seq<ZohoLead>, latest: Stamp) {
    && (exists i :: 0 <= i < |fetched| && latest == fetched[i].modifiedTime)
    && (forall i :: 0 <= i < |fetched| ==> fetched[i].modifiedTime.at <= latest.at)
  }

  /** The latest stamp among the fetched leads is one of their `Modified_Time`s and no
      earlier than any of them. */
  lemma LatestLeadStamp(fetched: seq<ZohoLead>, latest: Stamp)
    requires |fetched| > 0 && latest == LatestStamp(MapSeq(fetched, LeadModified))
    ensures LatestModified(fetched, latest)
  {
    var stamps := MapSeq(fetched, LeadModified);
    var i :| 0 <= i < |stamps| && stamps[i] == latest;
    assert fetched[i].modifiedTime == latest;
    forall j | 0 <= j < |fetched|
      ensures fetched[j].modifiedTime.at <= latest.at
    {
      assert stamps[j] == fetched[j].modifiedTime;
    }
  }

  /** The run after a lead sync that wrote its cursor starts from the latest stamp the
      first one fetched. */
  lemma NextLeadSyncSince(store: Store, now: Instant, cursorRead: Outcome<string>,
                          replies: seq<ZohoClient.Exchange<ZohoLead>>, later: Instant,
                          replies2: seq<ZohoClient.Exchange<ZohoLead>>,
                          upsert2: Outcome<string>, write2: Outcome<string>)
    requires ZohoClient.PagesFrom(replies, 1).Success? && |ZohoClient.PagesFrom(replies, 1).value| > 0
    ensures var r1 := SyncLeads(store, now, cursorRead, replies, Pass, Pass);
            var r2 := SyncLeads(r1.store, later, Pass, replies2, upsert2, write2);
            var latest := LatestStamp(MapSeq(ZohoClient.PagesFrom(replies, 1).value, LeadModified));
            && r2.since == latest
            && |r2.requests| >= 1
            && forall i :: 0 <= i < |r2.requests| ==> r2.requests[i].criterion == ZohoClient.ModifiedSince(latest.text)
  {
    NextLeadCursor(store, now, cursorRead, replies, later, replies2, upsert2, write2);
  }

  lemma NextLeadCursor(store: Store, now: Instant, cursorRead: Outcome<string>,
                       replies: seq<ZohoClient.Exchange<ZohoLead>>, later: Instant,
                       replies2: seq<ZohoClient.Exchange<ZohoLead>>,
                       upsert2: Outcome<string>, write2: Outcome<string>)
    requires ZohoClient.PagesFrom(replies, 1).Success? && |ZohoClient.PagesFrom(replies, 1).value| > 0
    ensures var r1 := SyncLeads(store, now, cursorRead, replies, Pass, Pass);
            var r2 := SyncLeads(r1.store, later, Pass, replies2, upsert2, write2);
            r2.since == LatestStamp(MapSeq(ZohoClient.PagesFrom(replies, 1).value, LeadModified))
  {
    var r1 := SyncLeads(store, now, cursorRead, replies, Pass, Pass);
    LeadCursorAdvanced(store, now, cursorRead, replies);
    var r2 := SyncLeads(r1.store, later, Pass, replies2, upsert2, write2);
    assert r2.since == LastSyncTime(r1.store.cursors, Pass, Leads, later);
  }

  /** Once a sync has stored its cursor, the next run starts from the latest
      `Modified_Time` the first one fetched: one of them, and no earlier than any. */
  lemma NextSyncStartsFromLatest(store: Store, now: Instant, cursorRead: Outcome<string>,
                                 replies: seq<ZohoClient.Exchange<ZohoLead>>, later: Instant,
                                 replies2: seq<ZohoClient.Exchange<ZohoLead>>,
                                 upsert2: Outcome<string>, write2: Outcome<string>)
    requires ZohoClient.PagesFrom(replies, 1).Success? && |ZohoClient.PagesFrom(replies, 1).value| > 0
    ensures var fetched := ZohoClient.PagesFrom(replies, 1).value;
            var r1 := SyncLeads(store, now, cursorRead, replies, Pass, Pass);
            var r2 := SyncLeads(r1.store, later, Pass, replies2, upsert2, write2);
            LatestModified(fetched, r2.since)
  {
    var fetched := ZohoClient.PagesFrom(replies, 1).value;
    var r1 := SyncLeads(store, now, cursorRead, replies, Pass, Pass);
    var r2 := SyncLeads(r1.store, later, Pass, replies2, upsert2, write2);
    var latest := LatestStamp(MapSeq(fetched, LeadModified));
    LatestLeadStamp(fetched, latest);
    NextLeadCursor(store, now, cursorRead, replies, later, replies2, upsert2, write2);
    assert r2.since == latest;
  }
}
