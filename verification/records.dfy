/** The rows the CRM dashboard reads and writes, and the timestamps they carry.
    Every nullable column is an `Option`; every query is a `Query` that either
    returns its rows or reports an error. */
module Records {
  import opened Wrappers

  /** Milliseconds since 1970-01-01T00:00:00Z. */
  type Instant = int

  const MsPerSecond: int := 1000
  const MsPerMinute: int := 60 * MsPerSecond
  const MsPerHour: int := 60 * MsPerMinute
  const MsPerDay: int := 24 * MsPerHour

  /** A stored timestamp: its ISO-8601 text as the store returns it, and the instant
      it denotes. Queries run by the store compare instants; JavaScript and pandas
      code that compares the raw values compares the text. */
  datatype Stamp = Stamp(text: string, at: Instant)

  /** The answer of a store query: its rows, or the error the store reports. */
  type Query<T> = Result<T, string>

  /** A row of `crm_leads`. */
  datatype LeadRow = LeadRow(
    leadId: string,
    ownerName: Option<string>,
    status: Option<string>,
    source: Option<string>,
    createdTime: Option<Stamp>,
    modifiedTime: Option<Stamp>,
    isConverted: Option<bool>)

  /** A row of `crm_deals`; `amount` is `None` when the stored value is not a number. */
  datatype DealRow = DealRow(
    dealId: string,
    leadId: Option<string>,
    dealName: Option<string>,
    ownerName: Option<string>,
    stage: Option<string>,
    source: Option<string>,
    amount: Option<real>,
    createdTime: Option<Stamp>,
    modifiedTime: Option<Stamp>,
    closedTime: Option<Stamp>)

  /** The single row of `daily_metrics_summary`. */
  datatype DailySummary = DailySummary(
    newLeadsToday: nat,
    leadsContacted: nat,
    qualifiedLeads: nat,
    demosScheduled: nat,
    demosHeld: nat,
    proposalsSent: nat,
    negotiationsActive: nat,
    dealsClosed: nat,
    dealAmountWon: real,
    dealAmountLost: real,
    totalRevenue: real)

  /** A field of a stored JSON object: left out, written as `null`, or written with a
      value. `dict.get` tells the first two apart: a default replaces only a missing key. */
  datatype JsonField<T> = Absent | JsonNull | Present(value: T)

  /** One metric tile of a stored AI summary's `overview`. */
  datatype Card = Card(changePct: JsonField<real>, trendStr: JsonField<string>, isGood: JsonField<bool>)

  /** The stored AI summary: its overview tiles by key (`None` for a tile stored as
      `null`), and its briefing text. */
  datatype AiPayload = AiPayload(overview: map<string, Option<Card>>, summaryText: Option<string>)

  /** A row of `ai_summaries`. */
  datatype AiRow = AiRow(id: int, createdAt: Stamp, payload: AiPayload)
}
