/** The `/data` handler of backend/src/api/dashboardRoutes.js: it builds the lead and
    deal queries for the requested window, runs them with the summary and AI queries,
    and answers with the live rows (saving them as the snapshot), with the saved
    snapshot when the live fetch fails, or with 502 when there is no snapshot either.
    The store's tables and the error each query reports are parameters; the snapshot
    file is an `Option<Payload>` that JSON writing and reading preserve. */
module DashboardRoutes {
  import opened Wrappers
  import opened Text
  import opened Tally
  import opened Records
  import IsoTime

  /** The query string. A bound carries its text, whose truthiness the handler tests,
      and the instant the store parses it to. */
  datatype DataRequest = DataRequest(rangeLabel: Option<string>, startUtc: Option<Stamp>, endUtc: Option<Stamp>)

  function BoundText(b: Option<Stamp>): Option<string> {
    if b.Some? then Some(b.value.text) else None
  }

  /** A bound the handler uses: present with non-empty text. */
  predicate Given(b: Option<Stamp>) {
    Truthy(BoundText(b))
  }

  /** The window applies unless the label is 'All Time' or no start is given. */
  predicate FilterApplies(q: DataRequest) {
    q.rangeLabel != Some("All Time") && Given(q.startUtc)
  }

  // ---------------------------------------------------------------------------
  // Query building
  // ---------------------------------------------------------------------------

  /** The conditions added to the leads query: `gte('created_time', ..)` and
      `lt('created_time', ..)`. */
  datatype LeadsFilter = LeadsFilter(createdFrom: Option<Stamp>, createdBefore: Option<Stamp>)

  /** The condition added to the deals query: the `or` of `created_time`,
      `modified_time` and `closed_time` each `gte` the start. */
  datatype DealsFilter = DealsFilter(anyFrom: Option<Stamp>)

  function LeadsFilterFor(q: DataRequest): (f: LeadsFilter)
    ensures !FilterApplies(q) ==> f == LeadsFilter(None, None)
    ensures FilterApplies(q) ==> f.createdFrom == q.startUtc
    ensures FilterApplies(q) && Given(q.endUtc) ==> f.createdBefore == q.endUtc
    ensures !Given(q.endUtc) ==> f.createdBefore.None?
  {
    if !FilterApplies(q) then LeadsFilter(None, None)
    else LeadsFilter(q.startUtc, if Given(q.endUtc) then q.endUtc else None)
  }

  function DealsFilterFor(q: DataRequest): (f: DealsFilter)
    ensures !FilterApplies(q) ==> f == DealsFilter(None)
    ensures FilterApplies(q) ==> f.anyFrom == q.startUtc
  {
    if !FilterApplies(q) then DealsFilter(None) else DealsFilter(q.startUtc)
  }

  // ---------------------------------------------------------------------------
  // The store's answers
  // ---------------------------------------------------------------------------

  /** A column `gte` a bound; a null column never compares true. */
  predicate AtOrAfter(t: Option<Stamp>, bound: Stamp) {
    t.Some? && t.value.at >= bound.at
  }

  predicate Before(t: Option<Stamp>, bound: Stamp) {
    t.Some? && t.value.at < bound.at
  }

  predicate LeadMatches(f: LeadsFilter, l: LeadRow) {
    && (f.createdFrom.Some? ==> AtOrAfter(l.createdTime, f.createdFrom.value))
    && (f.createdBefore.Some? ==> Before(l.createdTime, f.createdBefore.value))
  }

  predicate DealMatches(f: DealsFilter, d: DealRow) {
    f.anyFrom.Some? ==>
      AtOrAfter(d.createdTime, f.anyFrom.value) || AtOrAfter(d.modifiedTime, f.anyFrom.value)
      || AtOrAfter(d.closedTime, f.anyFrom.value)
  }

  /** The columns the leads query selects: every one but `modified_time`. */
  function LeadColumns(l: LeadRow): LeadRow {
    l.(modifiedTime := None)
  }

  function ProjectLeads(table: seq<LeadRow>): (r: seq<LeadRow>)
    ensures |r| == |table|
    ensures forall i :: 0 <= i < |table| ==> r[i] == LeadColumns(table[i])
  {
    seq(|table|, i requires 0 <= i < |table| => LeadColumns(table[i]))
  }

  /** The leads query's answer: the error the store reports, or the matching rows. */
  function RunLeads(table: seq<LeadRow>, f: LeadsFilter, error: Outcome<string>): (r: Query<seq<LeadRow>>)
    ensures error.Fail? <==> r.Failure?
    ensures r.Failure? ==> r.error == error.error
    ensures r.Success? ==> forall i :: 0 <= i < |r.value| ==> LeadMatches(f, r.value[i])
  {
    if error.Fail? then Failure(error.error) else Success(Filter(ProjectLeads(table), l => LeadMatches(f, l)))
  }

  function RunDeals(table: seq<DealRow>, f: DealsFilter, error: Outcome<string>): (r: Query<seq<DealRow>>)
    ensures error.Fail? <==> r.Failure?
    ensures r.Failure? ==> r.error == error.error
    ensures r.Success? ==> forall i :: 0 <= i < |r.value| ==> DealMatches(f, r.value[i])
  {
    if error.Fail? then Failure(error.error) else Success(Filter(table, d => DealMatches(f, d)))
  }

  // ---------------------------------------------------------------------------
  // The handler
  // ---------------------------------------------------------------------------

  /** What is sent and saved: the two row sets, the summary and AI rows (`null` when
      their query failed) and the time of the fetch. */
  datatype Payload = Payload(
    leads: seq<LeadRow>,
    deals: seq<DealRow>,
    metrics: Option<seq<DailySummary>>,
    aiTable: Option<seq<AiRow>>,
    timestamp: string)

  /** The three answers: `source: 'live'`, `source: 'cache'` with the error message,
      and the 502 error. */
  datatype Response =
    | Live(payload: Payload)
    | FromCache(payload: Payload, error: string)
    | BadGateway(details: string)

  datatype Handled = Handled(response: Response, snapshot: Option<Payload>)

  /** `res.data`, which is `null` when the query failed. */
  function DataOrNull<T>(r: Query<T>): (d: Option<T>)
    ensures d.Some? <==> r.Success?
    ensures d.Some? ==> d.value == r.value
  {
    if r.Success? then Some(r.value) else None
  }

  /** The message of the first error thrown in the `try` block: the leads error, then
      the deals error, then the snapshot write's. */
  function FirstError(leads: Query<seq<LeadRow>>, deals: Query<seq<DealRow>>, write: Outcome<string>)
    : (e: Option<string>)
    ensures e.None? <==> leads.Success? && deals.Success? && write.Pass?
    ensures leads.Failure? ==> e == Some(leads.error)
    ensures leads.Success? && deals.Failure? ==> e == Some(deals.error)
    ensures leads.Success? && deals.Success? && write.Fail? ==> e == Some(write.error)
  {
    if leads.Failure? then Some(leads.error)
    else if deals.Failure? then Some(deals.error)
    else if write.Fail? then Some(write.error)
    else None
  }

  /** `GET /data` at instant `now`. */
  function HandleData(q: DataRequest, leadsTable: seq<LeadRow>, dealsTable: seq<DealRow>,
                      leadsError: Outcome<string>, dealsError: Outcome<string>,
                      metrics: Query<seq<DailySummary>>, ai: Query<seq<AiRow>>,
                      now: Instant, snapshot: Option<Payload>, write: Outcome<string>)
    : (r: Handled)
    ensures r.response.Live? <==> leadsError.Pass? && dealsError.Pass? && write.Pass?
    ensures r.response.Live? ==>
              && r.snapshot == Some(r.response.payload)
              && r.response.payload.leads == RunLeads(leadsTable, LeadsFilterFor(q), leadsError).value
              && r.response.payload.deals == RunDeals(dealsTable, DealsFilterFor(q), dealsError).value
              && r.response.payload.metrics == DataOrNull(metrics)
              && r.response.payload.aiTable == DataOrNull(ai)
              && r.response.payload.timestamp == IsoTime.ToIsoString(now)
    ensures !r.response.Live? ==> r.snapshot == snapshot
    ensures !r.response.Live? && snapshot.Some? ==> r.response.FromCache? && r.response.payload == snapshot.value
    ensures !r.response.Live? && snapshot.None? ==> r.response.BadGateway?
    ensures leadsError.Fail? ==>
              r.response == (if snapshot.Some? then FromCache(snapshot.value, leadsError.error)
                             else BadGateway(leadsError.error))
    ensures leadsError.Pass? && dealsError.Fail? ==>
              r.response == (if snapshot.Some? then FromCache(snapshot.value, dealsError.error)
                             else BadGateway(dealsError.error))
    ensures leadsError.Pass? && dealsError.Pass? && write.Fail? ==>
              r.response == (if snapshot.Some? then FromCache(snapshot.value, write.error)
                             else BadGateway(write.error))
  {
    var leads := RunLeads(leadsTable, LeadsFilterFor(q), leadsError);
    var deals := RunDeals(dealsTable, DealsFilterFor(q), dealsError);
    match FirstError(leads, deals, write)
    case None =>
      var payload := Payload(leads.value, deals.value, DataOrNull(metrics), DataOrNull(ai), IsoTime.ToIsoString(now));
      Handled(Live(payload), Some(payload))
    case Some(message) =>
      if snapshot.Some? then Handled(FromCache(snapshot.value, message), snapshot)
      else Handled(BadGateway(message), snapshot)
  }

  // ---------------------------------------------------------------------------
  // Properties
  // ---------------------------------------------------------------------------

  /** Without a window every lead and every deal comes back. */
  lemma NoWindowKeepsEverything(q: DataRequest, leadsTable: seq<LeadRow>, dealsTable: seq<DealRow>)
    requires !FilterApplies(q)
    ensures RunLeads(leadsTable, LeadsFilterFor(q), Pass) == Success(ProjectLeads(leadsTable))
    ensures RunDeals(dealsTable, DealsFilterFor(q), Pass) == Success(dealsTable)
  {
    FilterAll(ProjectLeads(leadsTable), l => LeadMatches(LeadsFilter(None, None), l));
    FilterAll(dealsTable, d => DealMatches(DealsFilter(None), d));
  }

  lemma {:induction false} FilterAll<T>(s: seq<T>, p: T -> bool)
    requires forall i :: 0 <= i < |s| ==> p(s[i])
    ensures Filter(s, p) == s
    decreases |s|
  {
    if |s| > 0 {
      FilterAll(s[1..], p);
      assert [s[0]] + s[1..] == s;
    }
  }

  /** With a window, a lead comes back exactly when it was created at or after the
      start and, if an end is given, before it. */
  lemma LeadKeptIff(q: DataRequest, leadsTable: seq<LeadRow>, l: LeadRow)
    requires FilterApplies(q)
    ensures var answer := RunLeads(leadsTable, LeadsFilterFor(q), Pass).value;
            l in answer <==>
              && l in ProjectLeads(leadsTable)
              && AtOrAfter(l.createdTime, q.startUtc.value)
              && (Given(q.endUtc) ==> Before(l.createdTime, q.endUtc.value))
  {
    FilterMembership(ProjectLeads(leadsTable), l' => LeadMatches(LeadsFilterFor(q), l'), l);
  }

  /** With a window, a deal comes back exactly when one of its three times is at or
      after the start; the end of the window plays no part. */
  lemma DealKeptIff(q: DataRequest, dealsTable: seq<DealRow>, d: DealRow)
    requires FilterApplies(q)
    ensures var answer := RunDeals(dealsTable, DealsFilterFor(q), Pass).value;
            d in answer <==>
              && d in dealsTable
              && (AtOrAfter(d.createdTime, q.startUtc.value) || AtOrAfter(d.modifiedTime, q.startUtc.value)
                  || AtOrAfter(d.closedTime, q.startUtc.value))
  {
    FilterMembership(dealsTable, d' => DealMatches(DealsFilterFor(q), d'), d);
  }

  /** Changing the end of the window never changes the deals returned. */
  lemma DealsIgnoreEnd(q: DataRequest, end: Option<Stamp>, dealsTable: seq<DealRow>, error: Outcome<string>)
    ensures RunDeals(dealsTable, DealsFilterFor(q.(endUtc := end)), error)
            == RunDeals(dealsTable, DealsFilterFor(q), error)
  {
  }

  /** A deal created after the end of the window is still returned when it was created
      after the start, while a lead with the same creation time is not. */
  lemma DealPastEndKept(start: Stamp, end: Stamp, d: DealRow, l: LeadRow)
    requires start.text != "" && end.text != "" && start.at <= end.at
    requires d.createdTime == Some(end) && l.createdTime == Some(end)
    ensures var q := DataRequest(Some("This Month"), Some(start), Some(end));
            && d in RunDeals([d], DealsFilterFor(q), Pass).value
            && RunLeads([l], LeadsFilterFor(q), Pass).value == []
  {
    var q := DataRequest(Some("This Month"), Some(start), Some(end));
    assert FilterApplies(q);
    assert !LeadMatches(LeadsFilterFor(q), LeadColumns(l));
  }

  /** Whatever the summary and AI queries answer, and however they fail, the outcome is
      live exactly when the two row queries and the snapshot write succeed. */
  lemma SideQueriesNeverFail(q: DataRequest, leadsTable: seq<LeadRow>, dealsTable: seq<DealRow>,
                             metrics: Query<seq<DailySummary>>, ai: Query<seq<AiRow>>,
                             metrics2: Query<seq<DailySummary>>, ai2: Query<seq<AiRow>>,
                             now: Instant, snapshot: Option<Payload>)
    ensures var r1 := HandleData(q, leadsTable, dealsTable, Pass, Pass, metrics, ai, now, snapshot, Pass);
            var r2 := HandleData(q, leadsTable, dealsTable, Pass, Pass, metrics2, ai2, now, snapshot, Pass);
            && r1.response.Live? && r2.response.Live?
            && r1.response.payload.leads == r2.response.payload.leads
            && r1.response.payload.deals == r2.response.payload.deals
  {
  }

  /** After a live answer, a request whose fetch fails is served the rows of that
      answer from the snapshot, with the new error message. */
  lemma FailureServesLastLive(q: DataRequest, leadsTable: seq<LeadRow>, dealsTable: seq<DealRow>,
                              metrics: Query<seq<DailySummary>>, ai: Query<seq<AiRow>>, now: Instant,
                              snapshot: Option<Payload>,
                              q2: DataRequest, leadsTable2: seq<LeadRow>, dealsTable2: seq<DealRow>,
                              leadsError2: Outcome<string>, dealsError2: Outcome<string>,
                              metrics2: Query<seq<DailySummary>>, ai2: Query<seq<AiRow>>, later: Instant,
                              write2: Outcome<string>)
    requires leadsError2.Fail? || dealsError2.Fail? || write2.Fail?
    ensures var r1 := HandleData(q, leadsTable, dealsTable, Pass, Pass, metrics, ai, now, snapshot, Pass);
            var r2 := HandleData(q2, leadsTable2, dealsTable2, leadsError2, dealsError2, metrics2, ai2,
                                 later, r1.snapshot, write2);
            && r2.response.FromCache?
            && r2.response.payload == r1.response.payload
            && r2.snapshot == r1.snapshot
  {
  }
}
