# CRM-Dashboard record-processing core, in Dafny

This project models the deterministic logic of the CRM-Dashboard backend and Streamlit
dashboard. Each piece becomes a pure function over sequences of records, and the
database, the Zoho API, the clock and the snapshot file become explicit inputs.

- **Analytics** (`Metrics`, from `backend/src/analytics/metrics.js`):
  - free-text deal stages are put in buckets, exact audited names first and then the
    fuzzy `demo` / `proposal` / `negotiat` fallbacks;
  - the cumulative funnel and the leak funnel;
  - the five-stage pipeline value, with non-numeric amounts counted as 0;
  - the lead-source distribution;
  - the precomputed `daily_metrics_summary` row, with its half-open `[today, tomorrow)`
    test compared on ISO text;
  - the 30-day leads trend, and today's metrics with their anomaly and focus rules.
- **The `/data` route** (`DashboardRoutes`, from `backend/src/api/dashboardRoutes.js`):
  - the window filter on leads;
  - the lower-bound-only OR filter on deals;
  - the live / cache / 502 provenance machine over an `Option<Payload>` snapshot.
- **Incremental sync**:
  - `SyncService` (`backend/src/ingestion/syncService.js`): the cursor fallback of now
    minus 24 h, written to the second; the row mapping with defaults; the de-duplication
    by id (`KeyedRows`); the cursor moving to the latest `Modified_Time`; the reset.
  - `ZohoClient` (`zohoClient.js`): the status handling of one exchange (204, ≥ 400) and
    the paging loop as a method over a sequence of replies, where page `p` is
    `replies[p-1]`.
  - `IsoTime`: the ISO text `Date.prototype.toISOString` writes.
- **Token cache** (`ZohoAuth`, from `backend/src/auth/zohoAuth.js`): a cached token is
  served only while `now < expiry - 5 min`; otherwise the token is refreshed.
- **Scheduler** (`Scheduler`, from `backend/src/scheduler/index.js`):
  `calculatePercentChange`, the funnel summary and its conversion rate, and the four
  overview cards with their `isGood` flags.
- **Dashboard** (`DashboardView`, from `dashboard.py`):
  - amount and stage coercion;
  - the six-stage funnel;
  - source labels and the top six slices;
  - revenue by owner;
  - the choice of the latest AI payload;
  - the rule for showing a tile's delta.
- **Yesterday window** (`DiagDates`, from `diag_dates.py`): the window in the fixed
  UTC+5:30 zone, and its half-open membership test.

Shared pieces:

- `Wrappers`: `Option`, `Result`, `Outcome`.
- `Text`: ASCII case mapping, JavaScript `trim`, substring search, lexicographic order and
  Python `title`.
- `Tally`: counting, sums, occurrences, distinct values and a stable descending sort.
- `Records`: the table rows. An instant is an `int` of milliseconds. A `Stamp` holds a
  timestamp's text together with its instant: store queries compare the instant, and
  JavaScript and pandas string comparisons compare the text.

Two behaviours of the program are easy to misread:

- The deal filter of the `/data` route checks only the lower bound. `end_utc` never
  applies to deals.
- Stage matching in `metrics.js` tries the exact audited names first and only then a
  substring match.

## Model

| member | source | states |
|---|---|---|
| Metrics.FunnelBucketOf | backend/src/analytics/metrics.js:125-146 | on the trimmed lower-cased stage text: Qualified exactly for "awaiting electric plan"; DemoDone exactly for "walkthrough completed" or a non-audited text containing "demo"; ProposalSent exactly for "proposal shared" or a non-audited text with "proposal" and no "demo"; Negotiation exactly for "negotiation/review", "closed and advance pending" or a non-audited text with "negotiat" and neither "demo" nor "proposal"; Won exactly for "closed won"; otherwise unbucketed, and a stage that is not a string is unbucketed |
| Metrics.TallyStages | backend/src/analytics/metrics.js:124-147 | `contacted` is the number of deals: every deal bumps it once |
| Metrics.TallyCounts | backend/src/analytics/metrics.js:124-147 | each bucket counter (qualified, demo done, proposal sent, negotiation, won) ends up as the number of deals whose stage falls in that bucket |
| Metrics.ReachedSplit | backend/src/analytics/metrics.js:149-155 | the deals that reached funnel depth k are exactly those in the bucket at k plus those that reached depth k+1, so each cumulative count is the number of deals at or below that stage |
| Metrics.CumulativeFunnel | backend/src/analytics/metrics.js:149-175 | the eight full-funnel entries in their fixed order; each stage adds its own bucket to the next stage's count, and Demo Scheduled equals Demo Done because nothing is ever scheduled |
| Metrics.FunnelMetrics | backend/src/analytics/metrics.js:94-178 | no report exactly when one of the three queries fails; otherwise each full-funnel count is the number of deals that reached that depth, Contacted is the number of deals, counts never increase from Contacted down to Won, and the leak funnel holds total, converted, deal count and won count |
| Metrics.NegotiationReviewScenario | backend/src/analytics/metrics.js:138-155 | a single "Negotiation/Review" deal counts once in Negotiation and not as won |
| Metrics.PipelineStageOf | backend/src/analytics/metrics.js:210-224 | on the trimmed lower-cased stage text ("unknown" for a non-string): Qualification exactly for "awaiting electric plan" or a non-audited text containing "qualif"; Proposal exactly for "proposal shared" or a non-audited text with "proposal" or "quote" and no "qualif"; Negotiation exactly for "negotiation/review", "closed and advance pending" or a non-audited text with "negotiat" and none of the earlier words; Won exactly for "closed won"; Lost exactly for "closed lost"; no stage otherwise |
| Metrics.AuditedStagesAgree | backend/src/analytics/metrics.js:132-142 | on the audited names the funnel and the pipeline share, a deal's funnel bucket and its pipeline stage correspond (Qualified–Qualification, Proposal Sent–Proposal, Negotiation–Negotiation, Won–Won) |
| Metrics.NonStringStageUnmapped | backend/src/analytics/metrics.js:210-224 | a stage that is not a string reads "Unknown" and maps to no pipeline stage |
| Metrics.AccumulatePipeline | backend/src/analytics/metrics.js:209-232 | each per-stage total is the sum of the amounts of the deals mapped to that stage, and the active total is the sum over the Qualification, Proposal and Negotiation deals |
| Metrics.PipelineMetrics | backend/src/analytics/metrics.js:180-244 | on a query error, no stages and a zero total; otherwise exactly five stages in the order Qualification, Proposal, Negotiation, Won, Lost, each the amount sum of its deals, and a total equal to the first three |
| Metrics.SumSplitActive | backend/src/analytics/metrics.js:226-231 | the active total is the Qualification, Proposal and Negotiation sums together |
| Metrics.PipelineTotalOnAppend | backend/src/analytics/metrics.js:212-231 | one more deal that is Won, Lost or unmapped leaves the total unchanged; an active deal raises it by exactly its amount, which is 0 when the amount is not numeric |
| Metrics.SourceCounts | backend/src/analytics/metrics.js:81-88 | one entry per distinct cleaned source name, each holding the positive number of leads with that name; every lead's name has an entry; the counts sum to the number of leads |
| Metrics.SourceDistribution | backend/src/analytics/metrics.js:71-92 | `[]` on a query error; otherwise a permutation of the per-name counts, sorted by count with the largest first, summing to the number of leads |
| Metrics.DailySummaryPayload | backend/src/analytics/metrics.js:309-381 | no row exactly when a query fails; otherwise `deals_closed` and `deal_amount_won` count and sum exactly the deals whose stage mentions "closed won" and whose closed_time text lies in [todayIso, tomorrowIso), no more than the deals mentioning "closed won"; `total_revenue` is the won amount; each status and stage counter counts the rows whose lower-cased text contains its word |
| Metrics.ClosedTodayAreWon | backend/src/analytics/metrics.js:351-355 | the deals closed today are never more than the deals whose stage mentions "closed won" |
| Metrics.SummaryTableAfter | backend/src/analytics/metrics.js:383-393 | untouched when the summary could not be computed; after a successful wipe it holds exactly the fresh row if the insert succeeds and nothing if it fails; since the wipe's result is never checked, a failed wipe keeps the old rows and the insert appends the fresh row after them |
| Metrics.FailedDeleteKeepsStaleFirst | backend/src/analytics/metrics.js:386-387 | after an unnoticed failed wipe the first row, the one a reader limited to one row takes, is still the stale one, with the fresh row appended last if inserted; only a successful wipe and insert put the fresh row first |
| Metrics.TrendCounts | backend/src/analytics/metrics.js:293-297 | for every day, the looked-up count is the number of leads created on that day |
| Metrics.LeadsTrend | backend/src/analytics/metrics.js:281-307 | `[]` on a query error; otherwise exactly 30 points, the one for k days back (k from 29 down to 0) dated with the UTC date of the instant `setDate(getDate() - k)` gives, each holding the number of leads created that date |
| Metrics.TrendDaysWithoutDaylightSaving | backend/src/analytics/metrics.js:299-305 | where local days last 24 hours the points are the 30 consecutive UTC days ending today, strictly ascending |
| Metrics.DaylightSavingRepeatsDay | backend/src/analytics/metrics.js:300-303 | run just after midnight two days after a spring-forward switch, the points for three and two days back carry the same date |
| Metrics.TrendZeroOnEmptyDay | backend/src/analytics/metrics.js:304 | a day of the window on which no lead was created shows 0 |
| Metrics.DailyMetrics | backend/src/analytics/metrics.js:3-68 | each failing query raises its error, the first one first; otherwise the report is dated with the UTC date of today's local midnight, and new leads, deals closed and revenue count and sum the rows in [today's local midnight, the next local midnight), both given as instants so that a 23- or 25-hour day is covered, the pipeline sums the open-stage deals, the "no deals closed" anomaly is raised exactly when none closed, and the healthy-pipeline focus appears exactly when the pipeline exceeds 100000 |
| Metrics.NoDealsAnomalyIff | backend/src/analytics/metrics.js:22-51 | the anomaly is raised exactly when no deal of the table closed as won (or plain closed) within today |
| DashboardRoutes.LeadsFilterFor | backend/src/api/dashboardRoutes.js:20-22 | a lead filter is built only when the range is not "All Time" and a start is given; its upper bound is present exactly when an end is given |
| DashboardRoutes.DealsFilterFor | backend/src/api/dashboardRoutes.js:20-26 | a deal filter is built under the same condition, and it carries the start only |
| DashboardRoutes.RunLeads | backend/src/api/dashboardRoutes.js:17-36 | the leads query fails exactly when its error is set, and then carries that error; every lead returned is accepted by the filter |
| DashboardRoutes.RunDeals | backend/src/api/dashboardRoutes.js:18-37 | the deals query fails exactly when its error is set, and then carries that error; every deal returned is accepted by the OR filter |
| DashboardRoutes.FirstError | backend/src/api/dashboardRoutes.js:36-53 | the error reported is the leads error when the leads query failed, else the deals error when the deals query failed, else the snapshot write error; there is none exactly when all three pass |
| DashboardRoutes.HandleData | backend/src/api/dashboardRoutes.js:11-65 | the response is live exactly when the leads query, the deals query and the snapshot write all pass; a live response is the new snapshot, holding the leads, deals, metrics, AI rows and the ISO timestamp of `now`; otherwise the snapshot is unchanged and the answer is that snapshot marked as cache, or a 502 when there is none, carrying the leads error, else the deals error, else the write error |
| DashboardRoutes.NoWindowKeepsEverything | backend/src/api/dashboardRoutes.js:20 | with "All Time" or no start every lead and every deal is returned |
| DashboardRoutes.LeadKeptIff | backend/src/api/dashboardRoutes.js:21-22 | a lead is returned exactly when its created_time is at or after the start and, when an end is given, before it |
| DashboardRoutes.DealKeptIff | backend/src/api/dashboardRoutes.js:24-26 | a deal is returned exactly when its created_time, modified_time or closed_time is at or after the start |
| DashboardRoutes.DealsIgnoreEnd | backend/src/api/dashboardRoutes.js:24-26 | the deals returned do not depend on the end of the window |
| DashboardRoutes.DealPastEndKept | backend/src/api/dashboardRoutes.js:24-26 | with a window whose end is given, a deal created exactly at the end is returned while a lead created then is not |
| DashboardRoutes.SideQueriesNeverFail | backend/src/api/dashboardRoutes.js:29-37 | whatever the metrics and AI queries answer, the response stays live with the same leads and deals |
| DashboardRoutes.FailureServesLastLive | backend/src/api/dashboardRoutes.js:39-61 | after a live response, a request whose leads query, deals query or snapshot write fails is served that live payload as cache |
| SyncService.FallbackCursor | backend/src/ingestion/syncService.js:7-8 | the fallback cursor is the whole second at or just before now minus 24 hours, and its text is that instant's ISO date and time to the second followed by Z |
| SyncService.LastSyncTime | backend/src/ingestion/syncService.js:4-20 | the stored cursor when the read succeeds and a row exists, otherwise the fallback |
| SyncService.SetLastSyncTime | backend/src/ingestion/syncService.js:22-30 | a successful write stores the cursor for the module and leaves the other module's cursor alone; a failed write changes nothing |
| SyncService.ResetSyncCursors | backend/src/ingestion/syncService.js:90-95 | both the Leads and Deals cursors read 2026-02-17T00:00:00Z afterwards |
| SyncService.ResetCursorConsistent | backend/src/ingestion/syncService.js:92-93 | the reset cursor's text is the ISO form of its instant |
| SyncService.MapLead | backend/src/ingestion/syncService.js:38-46 | the lead row keeps id and times; a missing owner, status or source becomes "Unknown" and a missing Is_Converted becomes false, while present values are kept |
| SyncService.MapDeal | backend/src/ingestion/syncService.js:66-77 | the deal row keeps the id, deal name, created and modified times; takes closed_time from Modified_Time exactly when the stage contains "Closed", otherwise null; a missing amount is 0; missing owner, stage and source become "Unknown" |
| SyncService.LowerCaseClosedHasNoClosedTime | backend/src/ingestion/syncService.js:76 | the "Closed" test is case-sensitive, so a stage written "closed won" gets no closed_time |
| SyncService.LatestStamp | backend/src/ingestion/syncService.js:54 | the stamp picked is one of the inputs, and no input denotes a later instant |
| SyncService.RunSync | backend/src/ingestion/syncService.js:32-58 | an empty fetch returns 0 and writes nothing; a failed fetch or upsert raises and leaves table and cursor alone; a successful upsert stores every row by key, moves the cursor to the latest Modified_Time when the cursor write succeeds, and returns the count before de-duplication |
| SyncService.SyncLeads | backend/src/ingestion/syncService.js:32-58 | the lead sync starts from the stored cursor or the fallback and sends the paging loop's requests for Leads with the criterion Modified_Time ≥ that cursor's text; it never touches the deals table, changes nothing when it fails or fetches nothing, and returns the number of records the paging loop fetched |
| SyncService.SyncDeals | backend/src/ingestion/syncService.js:60-89 | the same for deals: its requests search Deals modified since its cursor, and it never touches the leads table |
| SyncService.SyncedLeadsStored | backend/src/ingestion/syncService.js:49-51 | after a successful lead sync every fetched lead's id is in the table, holding the last fetched row with that id |
| SyncService.NextLeadSyncSince | backend/src/ingestion/syncService.js:4-55 | the run after a lead sync that stored its cursor starts from the latest stamp fetched, and every request it sends asks for records modified since that stamp's text |
| SyncService.NextSyncStartsFromLatest | backend/src/ingestion/syncService.js:33-55 | the next run starts from a stamp that is one of the fetched Modified_Times and no earlier than any of them |
| KeyedRows.Dedupe | backend/src/ingestion/syncService.js:49 | the rows kept have exactly the distinct keys of the input, in first-seen order, and the row for each key is the last input row with that key |
| KeyedRows.DedupeStep | backend/src/ingestion/syncService.js:49 | setting one more row keeps the keys those of the distinct input keys and each value the last row for its key |
| KeyedRows.UpsertAll | backend/src/ingestion/syncService.js:51 | every key of the batch maps to its last row, and every other key keeps its old row |
| KeyedRows.UpsertDedupeSame | backend/src/ingestion/syncService.js:49-51 | de-duplicating a batch before the upsert does not change what the table stores |
| KeyedRows.DedupeLastWithKey | backend/src/ingestion/syncService.js:49 | for every key, the de-duplicated batch and the original batch have the same last row with that key, or both have none |
| IsoTime.DigitsRoundTrip | backend/src/ingestion/syncService.js:8 | a number written in `width` digits reads back as itself when it fits |
| IsoTime.BeforeFirst | backend/src/ingestion/syncService.js:8 | `split('.')[0]` stops at the first dot |
| IsoTime.IsoSeconds | backend/src/ingestion/syncService.js:8 | the ISO text without milliseconds is the date and time to the second followed by Z |
| IsoTime.WholeSecondSameText | backend/src/ingestion/syncService.js:8 | cutting the milliseconds off an instant leaves its text to the second unchanged |
| IsoTime.IsoDate | backend/src/analytics/metrics.js:58 | the text before the first 'T' of the ISO string is the date of the instant's UTC day |
| IsoTime.IstMidnightIsoDate | backend/src/analytics/metrics.js:58 | midnight of 2026-02-17 in UTC+5:30 is dated 2026-02-16 |
| IsoTime.Feb17Text | backend/src/ingestion/syncService.js:92-93 | the instant 1771286400000 is written 2026-02-17T00:00:00Z |
| ZohoClient.FetchFromZoho | backend/src/ingestion/zohoClient.js:6-34 | a failed token request or network error raises; 204 gives an empty listing without reading the body; any other status ≥ 400 raises, as does a body that cannot be read; a success is 204 or a status below 400 with its decoded body |
| ZohoClient.FetchModifiedRecords | backend/src/ingestion/zohoClient.js:36-59 | the loop asks for pages 1, 2, 3, … with per_page 200 and the Modified_Time ≥ since criterion; it returns the records of the reference page-by-page definition (every page read, in order, or the first error) after exactly the number of requests the stopping rule allows |
| ZohoClient.PagesConcatenate | backend/src/ingestion/zohoClient.js:48-51 | when consecutive pages all carry records and say more remain, except the last, the result is their records in order |
| ZohoClient.LaterRepliesIgnored | backend/src/ingestion/zohoClient.js:51-53 | pages after the one that ends the listing are never requested: extra replies change neither the records nor the request count |
| ZohoClient.FailureDiscardsRecords | backend/src/ingestion/zohoClient.js:29-46 | a failing exchange on a requested page fails the whole listing, with no partial records |
| ZohoAuth.GetValidAccessToken | backend/src/auth/zohoAuth.js:7-39 | the cached token is returned unchanged, with no request, exactly when one is held and now < expiry − 300000 ms; otherwise missing credentials raise before any request, an error reply raises and leaves the cache alone, and a successful reply's access_token is returned and cached, with expiry the clock read after the reply plus expires_in × 1000 |
| ZohoAuth.ServedTokenIsFresh | backend/src/auth/zohoAuth.js:9-11 | a token served from the cache still has more than five minutes to live |
| ZohoAuth.RefreshedTokenReused | backend/src/auth/zohoAuth.js:9-31 | after a successful refresh, every call before the reply time plus expires_in × 1000 minus five minutes gets the same token without a request, whatever the credentials or the endpoint would answer |
| ZohoAuth.NoServeNearExpiry | backend/src/auth/zohoAuth.js:9 | once now reaches five minutes before expiry the cached token is never served |
| Scheduler.Round1 | backend/src/scheduler/index.js:38 | rounding to one decimal gives a multiple of 0.1 within 0.05 of the input, which keeps the input's sign or becomes 0 |
| Scheduler.Round1Monotone | backend/src/scheduler/index.js:38 | rounding to one decimal never reverses an order |
| Scheduler.PercentChange | backend/src/scheduler/index.js:34-39 | 0 when avg is 0, null or undefined, or when today is undefined, or when the quotient is NaN; exactly −100 when today is null, which subtracts as 0; otherwise within 0.05 of (today − avg)/avg × 100, and a multiple of 0.1 |
| Scheduler.Round1OfTenths | backend/src/scheduler/index.js:38 | a value that already is a whole number of tenths is returned unchanged |
| Scheduler.PercentChangeSign | backend/src/scheduler/index.js:36-38 | for avg > 0 the change is 0 when today = avg, never negative when today > avg and never positive when today < avg |
| Scheduler.PercentChangeMonotone | backend/src/scheduler/index.js:36-38 | for a fixed positive average, a larger figure today never gives a smaller change |
| Scheduler.CountOfFirst | backend/src/scheduler/index.js:51-54 | `find` returns the count of the first entry with the stage |
| Scheduler.ConversionRate | backend/src/scheduler/index.js:55 | 0 when there is no entry or the first count is 0; otherwise within 0.05 of the last count over the first as a percentage; never negative |
| Scheduler.SummaryAsWritten | backend/src/scheduler/index.js:50-55 | with the funnel as written, a successful funnel query raises a TypeError, and only the failed query gives a summary, all zero |
| Scheduler.SummaryAsWrittenNeverReportsFunnel | backend/src/scheduler/index.js:50-55 | as written, no successful funnel ever reaches the summary |
| Scheduler.SummaryAsWrittenExample | backend/src/scheduler/index.js:50-55 | one lead and one "Closed Won" deal make the summary as written raise |
| Scheduler.FunnelSummaryReportsFunnel | backend/src/scheduler/index.js:50-55 | read from the full funnel, leads is the lead total and contacted the number of deals; qualified, proposal sent and won are the deal counts at those depths with won ≤ proposal ≤ qualified ≤ contacted; the conversion rate is 0 without leads and otherwise within 0.05 of 100 × won / leads |
| Scheduler.AverageCard | backend/src/scheduler/index.js:87-110 | a "vs 7-day avg" card whose isGood is exactly changePct ≥ 0 |
| Scheduler.Overview | backend/src/scheduler/index.js:86-111 | the four cards newLeads, conversionRate, dealsClosed and pipelineValue; the three average cards are good exactly when their change is not negative; the conversion card is good exactly when the win rate is at least 15 and compares it with 15 |
| Scheduler.ConversionGoodHasNoDrop | backend/src/scheduler/index.js:95-97 | a conversion card marked good never shows a negative change |
| Scheduler.ConversionRoundsToZeroBelowBenchmark | backend/src/scheduler/index.js:95-97 | a win rate of 14.999 is marked not good while its change rounds to 0 |
| Scheduler.OverviewAsWritten | backend/src/scheduler/index.js:50-111 | as written, a successful funnel query aborts the overview, and otherwise the conversion card is never good |
| Scheduler.PipelineOverview | backend/src/scheduler/index.js:80-111 | with the corrected summary the overview is always produced, and its conversion card is good exactly when the funnel's conversion rate is at least 15 |
| DashboardView.StageStr | dashboard.py:147 | a stage converted to text is the stage itself, and "None" when missing |
| DashboardView.AmountNum | dashboard.py:148 | a numeric amount is kept and a missing or non-numeric one becomes 0 |
| DashboardView.MissingStageNeverMatches | dashboard.py:235-237 | a missing stage, cast to text at dashboard.py line 147, reads "None" and matches neither "closed won", "negotiation/review", "proposal shared" nor "awaiting electric plan" |
| DashboardView.DashboardFunnel | dashboard.py:226-246 | no funnel without leads or without deals; otherwise six stages in order, Total Leads the number of leads, Contacted the number of deals, each later stage adding the deals matching its phrase to the stages below it, so Qualified ≥ Proposal Shared ≥ Negotiation ≥ Closed Won |
| DashboardView.QualifiedWithinContacted | dashboard.py:241-245 | when no deal matches more than one of the four stage phrases, Qualified never exceeds Contacted |
| DashboardView.SourceLabel | dashboard.py:266 | the label has the source's length; each `_` becomes a space, a letter that starts a run of letters is upper-cased and any other letter lower-cased |
| DashboardView.SourceLabelIdempotent | dashboard.py:266 | relabelling a label gives the same label |
| DashboardView.ValueCounts | dashboard.py:264 | value_counts is a permutation of the per-source counts, sorted largest first, summing to the number of leads with a source |
| DashboardView.SourceSlices | dashboard.py:264-269 | at most six slices: the first six of the sorted counts, with the title-cased labels |
| DashboardView.SourceCounted | dashboard.py:264 | every source present among the leads has a count |
| DashboardView.HiddenSourcesNoLarger | dashboard.py:264-269 | a source left out of the six slices has no more leads than any slice shown |
| DashboardView.DistinctOwnersTotal | dashboard.py:282 | the per-owner sums together equal the total won amount |
| DashboardView.RevenueByOwner | dashboard.py:279-282 | one bar per owner of a won deal, each holding the sum of that owner's won amounts, sorted largest first, summing to the total won amount |
| DashboardView.OwnerHasBar | dashboard.py:280-282 | every owner of a won deal has a bar |
| DashboardView.LatestAiPayload | dashboard.py:151-154 | no payload when the table is empty; otherwise the payload of a row whose created_at text is not below any other row's |
| DashboardView.StrictlyLatestWins | dashboard.py:153-154 | a row whose created_at is later than every other row's is the one chosen |
| DashboardView.DisplayTile | dashboard.py:176-190 | a tile stored as null makes `display_metric` raise; a missing tile shows no delta in the normal colour; otherwise a delta is shown exactly when changePct is null or a number other than 0, reading "None" for null and with the trend '' when missing and "None" when null, and the colour is inverted exactly when isGood is false or null |
| DashboardView.NullFieldsNotDefaults | dashboard.py:178-189 | a null changePct shows "None%" with the trend and a null isGood inverts the colour, where the same fields missing show no delta in the normal colour |
| DashboardView.SchedulerTileShown | dashboard.py:179-188 | the dashboard shows the newLeads card the scheduler builds with its change and "vs 7-day avg" exactly when the change is not 0, in the normal colour exactly when it is not negative |
| DiagDates.LocalMidnight | diag_dates.py:4-10 | the result is a midnight in UTC+5:30, at most one day before now |
| DiagDates.LocalMidnightUnique | diag_dates.py:10 | a local midnight within one day before t is the midnight of t |
| DiagDates.YesterdayIsPreviousLocalDay | diag_dates.py:10-21 | a time is in yesterday's half-open window exactly when its own local day starts one day before today's |
| DiagDates.TodayAt14 | diag_dates.py:17 | 14:00 local today, within a minute, and with the same seconds and milliseconds as now |
| DiagDates.TodayNotInYesterday | diag_dates.py:17-22 | 14:00 today is not in yesterday's window |
| DiagDates.FilterWindow | diag_dates.py:31 | a time is kept exactly when it is among the input times and lies in the half-open window; the number kept is the number of input times in the window |
| DiagDates.FilterKeepsOnlyYesterday | diag_dates.py:25-32 | of 14:00 today and yesterday's start plus 10 hours, only the second is kept |

## Left out

- Supabase queries, HTTP calls and file reads and writes are not performed. Each query
  is an input holding the table as the query sees it, or its error. The Zoho API is a
  sequence of replies. The snapshot file is an `Option<Payload>`. Each clock reading is a
  parameter; the token refresh takes two, before the request and after the reply.
- Whether Zoho honours the `Modified_Time` criterion is part of the replies: the sync
  states the requests it sends, not that the records returned match them.
- JSON parsing of the snapshot is not modelled. A snapshot that exists but does not
  parse would throw inside the catch block, and the model treats every snapshot as
  readable.
- Store row limits (`.limit(1)`) and the ordering of the AI query are not modelled. The
  metrics and AI rows are passed through as given.
- The LLM client, WhatsApp and Twilio, the Express wiring, the configuration loading and
  the one-off scripts are outside the core.
- `runPipeline` orchestration, cron, and the concurrency of `Promise.all` are not modelled.
- The Streamlit layout and the Plotly charts are not modelled. Neither is the
  formatting of a tile's value text.
- `getHistoricalAverages` is not modelled: its averages are inputs to `Scheduler.Overview`.
- Only tenths rounding is modelled of JavaScript floating point. It appears as
  `Scheduler.Round1` on reals, halves away from zero, as `toFixed` rounds the
  magnitude and keeps the sign. Binary doubles, `toFixed`'s
  binary-to-decimal details and `parseFloat` are not modelled.
- Scheduler.PercentChange: states the result within 0.05 of the exact percentage,
  instead of the bit-exact `parseFloat(pct.toFixed(1))`.
- Amounts are `Option<real>`, with `None` standing for anything `Number(...)` or
  `pd.to_numeric` turns into NaN or 0. Text is not parsed into numbers.
- Time arithmetic differs from the source in three places:
  - `setHours(0, 0, 0, 0)` and `setDate(+1)` in `metrics.js` use the server's local
    time zone. The model takes the start of today and of tomorrow as input instants,
    so a day of any length is covered, but the time-zone rules that fix them are not
    modelled.
  - `getLeadsTrend` takes the day from the text of `created_time`. The model takes the
    UTC day of the instant. The instants `setDate(getDate() - k)` gives are inputs, so
    daylight-saving shifts are covered, but the zone rules that fix them are not
    modelled.
  - The calendar conversion behind `toISOString` is defined and checked on fixed dates
    only, 2026-02-16 and 2026-02-17. No round-trip over all dates is proved.
- Case mapping covers ASCII only. Python `str.title` and JavaScript `toLowerCase` on
  non-ASCII letters are not modelled.
- Sort stability and the order of `Object.keys` are not modelled. The model sorts with a
  stable insertion sort, so entries with equal counts may come out in a different order
  than in the source. The contracts state the permutation and the order, not tie order.
- ZohoClient.FetchModifiedRecords: the cached token is not threaded from one page to the
  next. Each exchange's token outcome is part of the reply for that page.
- `encodeURIComponent` and the URL text are not modelled. The request is a record of
  module, criterion, page and page size.
- Sync records are assumed to carry `Modified_Time`. With a missing one, the source's
  `new Date(undefined)` sort is not modelled.
- `diag_dates.py` times are milliseconds. Microseconds are not modelled.
- A null AI payload and a payload that is not a dictionary are not modelled. The overview
  is taken from the AI row as given.
- An overview tile that is neither an object nor `null`, and a tile field of the wrong
  JSON type, are not modelled. The scheduler writes neither.

## Findings

| source | as written | input that shows it | evidently intended | confidence | as-written member | corrected member |
|---|---|---|---|---|---|---|
| backend/src/scheduler/index.js:50-55 | the pipeline reads `funnelMetrics[0]` and calls `funnelMetrics.find(...)`, but on success `getFunnelMetrics` returns an object `{fullFunnel, leakFunnel}` rather than an array, so `find` is not a function and the whole run throws; only the failed query (`[]`) gets through, with every funnel figure 0 | one lead and one deal in stage "Closed Won", both queries succeeding | read the summary from `fullFunnel`: leads from its first entry, the named stages by `find`, and the conversion rate from the last entry over the first | high, not executed | Scheduler.SummaryAsWritten (lemmas Scheduler.SummaryAsWrittenNeverReportsFunnel, Scheduler.SummaryAsWrittenExample) | Scheduler.FunnelSummaryOf (lemma Scheduler.FunnelSummaryReportsFunnel) |
