/** The figures `runPipeline` in backend/src/scheduler/index.js derives before handing
    them to the AI layer: `calculatePercentChange`, the funnel summary with its
    `conversion_rate`, and the four overview tiles stored with each AI summary. The
    queries, the AI calls and the delivery are left to their own modules or out. */
module Scheduler {
  import opened Wrappers
  import opened Tally
  import opened Records
  import Metrics

  // ---------------------------------------------------------------------------
  // calculatePercentChange
  // ---------------------------------------------------------------------------

  /** A value where the source expects a number. */
  datatype JsNumber = Undefined | Null | NaN | Num(value: real)

  /** A multiple of 0.1. */
  predicate IsTenths(r: real) {
    (r * 10.0).Floor as real == r * 10.0
  }

  /** The integer nearest to `z`, a half going up. */
  function RoundHalfUp(z: real): (n: int)
    ensures z - 0.5 < n as real <= z + 0.5
  {
    (z + 0.5).Floor
  }

  /** A whole number of tenths is a multiple of 0.1. */
  lemma TenthsOfInt(n: int)
    ensures IsTenths(n as real / 10.0)
  {
    assert n as real / 10.0 * 10.0 == n as real;
  }

  /** `parseFloat(x.toFixed(1))`: the nearest multiple of 0.1, a half going away from
      zero (`toFixed` rounds the magnitude and keeps the sign). */
  function Round1(x: real): (r: real)
    ensures -0.05 <= r - x <= 0.05
    ensures IsTenths(r)
    ensures x >= 0.0 ==> r >= 0.0
    ensures x <= 0.0 ==> r <= 0.0
  {
    if x >= 0.0 then
      var n := RoundHalfUp(x * 10.0);
      TenthsOfInt(n);
      n as real / 10.0
    else
      var n := RoundHalfUp(-x * 10.0);
      TenthsOfInt(-n);
      (-n) as real / 10.0
  }

  /** A value that already is a whole number of tenths is left as it is. */
  lemma Round1OfTenths(n: int)
    ensures Round1(n as real / 10.0) == n as real / 10.0
  {
    var x := n as real / 10.0;
    assert x * 10.0 == n as real;
    if n >= 0 {
      assert RoundHalfUp(x * 10.0) == n;
    } else {
      assert -x * 10.0 == (-n) as real;
      assert RoundHalfUp(-x * 10.0) == -n;
    }
  }

  /** Rounding never reverses the order of two values. */
  lemma Round1Monotone(x: real, y: real)
    requires x <= y
    ensures Round1(x) <= Round1(y)
  {
    if x >= 0.0 {
      assert RoundHalfUp(x * 10.0) <= RoundHalfUp(y * 10.0);
    } else if y < 0.0 {
      assert RoundHalfUp(-y * 10.0) <= RoundHalfUp(-x * 10.0);
    }
  }

  /** `calculatePercentChange(today, avg)`: 0 when `avg` is 0, null or undefined, when
      `today` is undefined, or when the result is not a number; otherwise the change
      in percent, to one decimal. A null `today` counts as 0. */
  function PercentChange(today: JsNumber, avg: JsNumber): (r: real)
    ensures avg == Num(0.0) || avg.Null? || avg.Undefined? || today.Undefined? ==> r == 0.0
    ensures today.NaN? || avg.NaN? ==> r == 0.0
    ensures today.Num? && avg.Num? && avg.value != 0.0 ==>
              -0.05 <= r - (today.value - avg.value) / avg.value * 100.0 <= 0.05
    ensures today.Null? && avg.Num? && avg.value != 0.0 ==> r == -100.0
    ensures IsTenths(r)
  {
    if avg == Num(0.0) || avg.Null? || avg.Undefined? || today.Undefined? then 0.0
    else if today.NaN? || avg.NaN? then 0.0
    else
      var t := if today.Null? then 0.0 else today.value;
      var x := (t - avg.value) / avg.value * 100.0;
      assert today.Null? ==> x == (-1000) as real / 10.0;
      Round1OfTenths(-1000);
      Round1(x)
  }

  /** Against a positive average the rounded change never has the wrong sign: it is 0
      when today equals the average, and positive only when today is above it. */
  lemma PercentChangeSign(t: real, a: real)
    requires a > 0.0
    ensures t == a ==> PercentChange(Num(t), Num(a)) == 0.0
    ensures t >= a ==> PercentChange(Num(t), Num(a)) >= 0.0
    ensures t <= a ==> PercentChange(Num(t), Num(a)) <= 0.0
    ensures PercentChange(Num(t), Num(a)) > 0.0 ==> t > a
    ensures PercentChange(Num(t), Num(a)) < 0.0 ==> t < a
  {
    var x := (t - a) / a * 100.0;
    if t >= a {
      assert x >= 0.0;
    }
    if t <= a {
      assert x <= 0.0;
    }
  }

  /** Against a positive average, a larger today never gives a smaller change. */
  lemma PercentChangeMonotone(t1: real, t2: real, a: real)
    requires a > 0.0 && t1 <= t2
    ensures PercentChange(Num(t1), Num(a)) <= PercentChange(Num(t2), Num(a))
  {
    var x1 := (t1 - a) / a * 100.0;
    var x2 := (t2 - a) / a * 100.0;
    assert (t1 - a) / a <= (t2 - a) / a;
    Round1Monotone(x1, x2);
  }

  // ---------------------------------------------------------------------------
  // The funnel summary
  // ---------------------------------------------------------------------------

  /** `fullPayload.funnel`; `conversionRate` is `parseFloat` of its `conversion_rate`. */
  datatype FunnelSummary = FunnelSummary(
    leads: nat, contacted: nat, qualified: nat, proposalSent: nat, won: nat, conversionRate: real)

  /** `es.find(f => f.stage === stage)?.count || 0`: the count of the first entry with
      that stage name. */
  function CountOf(es: seq<Metrics.FunnelEntry>, stage: string): (n: nat)
    ensures (forall i :: 0 <= i < |es| ==> es[i].stage != stage) ==> n == 0
  {
    if |es| == 0 then 0 else if es[0].stage == stage then es[0].count else CountOf(es[1..], stage)
  }

  /** The first entry named `stage` decides `CountOf`. */
  lemma {:induction false} CountOfFirst(es: seq<Metrics.FunnelEntry>, stage: string, i: nat)
    requires i < |es| && es[i].stage == stage
    requires forall j :: 0 <= j < i ==> es[j].stage != stage
    ensures CountOf(es, stage) == es[i].count
    decreases i
  {
    if i > 0 {
      CountOfFirst(es[1..], stage, i - 1);
    }
  }

  /** `es[0]?.count > 0 ? (es[last].count / es[0].count * 100).toFixed(1) : 0`. */
  function ConversionRate(es: seq<Metrics.FunnelEntry>): (r: real)
    ensures |es| == 0 || es[0].count == 0 ==> r == 0.0
    ensures |es| > 0 && es[0].count > 0 ==>
              -0.05 <= r - es[|es| - 1].count as real / es[0].count as real * 100.0 <= 0.05
    ensures r >= 0.0
  {
    if |es| > 0 && es[0].count > 0 then Round1(es[|es| - 1].count as real / es[0].count as real * 100.0)
    else 0.0
  }

  /** The funnel summary read from an array of funnel entries. */
  function SummaryOfEntries(es: seq<Metrics.FunnelEntry>): FunnelSummary {
    FunnelSummary(
      leads := if |es| > 0 then es[0].count else 0,
      contacted := CountOf(es, "Contacted"),
      qualified := CountOf(es, "Qualified"),
      proposalSent := CountOf(es, "Proposal Sent"),
      won := CountOf(es, "Won"),
      conversionRate := ConversionRate(es))
  }

  /** The funnel summary as `runPipeline` computes it from what `getFunnelMetrics`
      resolves to: `[]` after a query error (`None`), otherwise the object
      `{fullFunnel, leakFunnel}`, which the code indexes and searches as though it
      were an array. On the object `funnelMetrics[0]` is undefined and
      `funnelMetrics.find` is not a function, so the whole run throws. */
  function SummaryAsWritten(funnel: Option<Metrics.FunnelReport>): (r: Result<FunnelSummary, string>)
    ensures funnel.Some? <==> r.Failure?
    ensures r.Success? ==> r.value == FunnelSummary(0, 0, 0, 0, 0, 0.0)
  {
    match funnel
    case None => Success(SummaryOfEntries([]))
    case Some(_) => Failure("TypeError: funnelMetrics.find is not a function")
  }

  /** As written, every run in which the funnel queries succeed aborts; the only
      summary that gets through is the all-zero one of a failed funnel query, whose
      conversion rate is 0. */
  lemma SummaryAsWrittenNeverReportsFunnel(totalLeads: Query<Option<nat>>, convertedLeads: Query<Option<nat>>,
                                           deals: Query<seq<DealRow>>)
    ensures var r := SummaryAsWritten(Metrics.FunnelMetrics(totalLeads, convertedLeads, deals));
            && (totalLeads.Success? && convertedLeads.Success? && deals.Success? ==> r.Failure?)
            && (r.Success? ==> r.value.leads == 0 && r.value.conversionRate == 0.0)
  {
  }

  /** A concrete run: one lead and one won deal, yet no summary is produced. */
  lemma SummaryAsWrittenExample()
    ensures var d := DealRow("d1", None, None, None, Some("Closed Won"), None, Some(500.0), None, None, None);
            SummaryAsWritten(Metrics.FunnelMetrics(Success(Some(1)), Success(Some(1)), Success([d]))).Failure?
  {
  }

  /** The summary read from `fullFunnel`, the array the code evidently means; `[]` after
      a query error as before. */
  function FunnelSummaryOf(funnel: Option<Metrics.FunnelReport>): FunnelSummary {
    SummaryOfEntries(if funnel.Some? then funnel.value.fullFunnel else [])
  }

  /** Read from `fullFunnel`, the summary reports the funnel's own figures: total leads,
      every deal as contacted, the cumulative qualified, proposal and won counts, and a
      conversion rate of won over total leads. */
  lemma FunnelSummaryReportsFunnel(totalLeads: Query<Option<nat>>, convertedLeads: Query<Option<nat>>,
                                   deals: Query<seq<DealRow>>)
    requires totalLeads.Success? && convertedLeads.Success? && deals.Success?
    ensures var s := FunnelSummaryOf(Metrics.FunnelMetrics(totalLeads, convertedLeads, deals));
            var ds := deals.value;
            && s.leads == totalLeads.value.GetOr(0)
            && s.contacted == |ds|
            && s.qualified == CountWhere(ds, Metrics.ReachedDepth(1))
            && s.proposalSent == CountWhere(ds, Metrics.ReachedDepth(3))
            && s.won == CountWhere(ds, Metrics.InBucket(Metrics.Won))
            && s.won <= s.proposalSent <= s.qualified <= s.contacted
            && (s.leads == 0 ==> s.conversionRate == 0.0)
            && (s.leads > 0 ==> -0.05 <= s.conversionRate - s.won as real / s.leads as real * 100.0 <= 0.05)
  {
    var f := Metrics.FunnelMetrics(totalLeads, convertedLeads, deals).value.fullFunnel;
    FullFunnelLookups(f);
  }

  /** In an array laid out as the full funnel, `find` picks the entry at the stage's
      fixed position. */
  lemma FullFunnelLookups(f: seq<Metrics.FunnelEntry>)
    requires |f| == 8 && Metrics.StageNames(f) == Metrics.FullFunnelStages
    ensures CountOf(f, "Contacted") == f[1].count
    ensures CountOf(f, "Qualified") == f[2].count
    ensures CountOf(f, "Proposal Sent") == f[5].count
    ensures CountOf(f, "Won") == f[7].count
  {
    forall j | 0 <= j < 8
      ensures f[j].stage == Metrics.FullFunnelStages[j]
    {
      assert Metrics.StageNames(f)[j] == f[j].stage;
    }
    LookupsByInitial(f);
    LookupsByLength(f);
  }

  /** "Contacted" and "Qualified" differ from the stages before them in their first letter. */
  lemma LookupsByInitial(f: seq<Metrics.FunnelEntry>)
    requires |f| == 8 && f[0].stage == "New Leads" && f[1].stage == "Contacted" && f[2].stage == "Qualified"
    ensures CountOf(f, "Contacted") == f[1].count
    ensures CountOf(f, "Qualified") == f[2].count
  {
    assert f[0].stage[0] == 'N' && f[1].stage[0] == 'C';
    assert f[0].stage != "Contacted";
    CountOfFirst(f, "Contacted", 1);
    assert f[0].stage != "Qualified" && f[1].stage != "Qualified";
    CountOfFirst(f, "Qualified", 2);
  }

  /** "Proposal Sent" and "Won" differ from the stages before them in length. */
  lemma LookupsByLength(f: seq<Metrics.FunnelEntry>)
    requires |f| == 8 && forall j :: 0 <= j < 8 ==> f[j].stage == Metrics.FullFunnelStages[j]
    ensures CountOf(f, "Proposal Sent") == f[5].count
    ensures CountOf(f, "Won") == f[7].count
  {
    assert forall j :: 0 <= j < 7 ==> |f[j].stage| != 3 && (j < 5 ==> |f[j].stage| != 13);
    CountOfFirst(f, "Proposal Sent", 5);
    CountOfFirst(f, "Won", 7);
  }

  // ---------------------------------------------------------------------------
  // The overview tiles
  // ---------------------------------------------------------------------------

  /** Today's figures from `getDailyMetrics` and the 7-day averages. */
  datatype DailyFigures = DailyFigures(newLeads: JsNumber, dealsClosed: JsNumber, pipelineValue: JsNumber)

  datatype Averages = Averages(avgLeads: JsNumber, avgDeals: JsNumber, avgPipeline: JsNumber)

  /** The win rate the conversion tile is compared with. */
  const BenchmarkWinRate: real := 15.0

  /** A tile measured against a 7-day average: good when the change is not negative. */
  function AverageCard(today: JsNumber, avg: JsNumber): (c: Card)
    ensures c.changePct == Present(PercentChange(today, avg))
    ensures c.isGood == Present(PercentChange(today, avg) >= 0.0)
  {
    var pct := PercentChange(today, avg);
    Card(Present(pct), Present("vs 7-day avg"), Present(pct >= 0.0))
  }

  /** `dbPayload.overview`, given the win rate parsed from the funnel summary. */
  function Overview(daily: DailyFigures, avg: Averages, winRate: real): (o: map<string, Card>)
    ensures o.Keys == {"newLeads", "conversionRate", "dealsClosed", "pipelineValue"}
    ensures forall k :: k in o ==> o[k].changePct.Present? && o[k].isGood.Present?
    ensures forall k :: k in o && k != "conversionRate" ==>
              (o[k].isGood.value <==> o[k].changePct.value >= 0.0)
    ensures o["conversionRate"].isGood == Present(winRate >= BenchmarkWinRate)
    ensures o["newLeads"].changePct == Present(PercentChange(daily.newLeads, avg.avgLeads))
    ensures o["dealsClosed"].changePct == Present(PercentChange(daily.dealsClosed, avg.avgDeals))
    ensures o["pipelineValue"].changePct == Present(PercentChange(daily.pipelineValue, avg.avgPipeline))
    ensures o["conversionRate"].changePct == Present(PercentChange(Num(winRate), Num(BenchmarkWinRate)))
  {
    map[
      "newLeads" := AverageCard(daily.newLeads, avg.avgLeads),
      "conversionRate" := Card(Present(PercentChange(Num(winRate), Num(BenchmarkWinRate))), Present("vs benchmark"),
                               Present(winRate >= BenchmarkWinRate)),
      "dealsClosed" := AverageCard(daily.dealsClosed, avg.avgDeals),
      "pipelineValue" := AverageCard(daily.pipelineValue, avg.avgPipeline)]
  }

  /** The `dbPayload` a run stores: every tile is written as an object, none as `null`. */
  function Payload(o: map<string, Card>, summary: Option<string>): (p: AiPayload)
    ensures p.overview.Keys == o.Keys
    ensures forall k :: k in o ==> p.overview[k] == Some(o[k])
    ensures p.summaryText == summary
  {
    AiPayload(map k | k in o :: Some(o[k]), summary)
  }

  /** A conversion tile marked good never shows a negative change. The converse fails
      only within rounding: a rate just under the benchmark shows a change of 0. */
  lemma ConversionGoodHasNoDrop(daily: DailyFigures, avg: Averages, winRate: real)
    ensures var c := Overview(daily, avg, winRate)["conversionRate"];
            c.isGood == Present(true) ==> c.changePct.value >= 0.0
  {
    PercentChangeSign(winRate, BenchmarkWinRate);
  }

  lemma ConversionRoundsToZeroBelowBenchmark()
    ensures var c := Overview(DailyFigures(Null, Null, Null), Averages(Null, Null, Null), 14.999)["conversionRate"];
            c.isGood == Present(false) && c.changePct == Present(0.0)
  {
    assert (14.999 - 15.0) / 15.0 * 100.0 == -1.0 / 150.0;
  }

  /** The tiles a run stores: as written the funnel summary aborts the run whenever the
      funnel query succeeds; with the summary read from `fullFunnel` the conversion tile
      uses the funnel's win rate. */
  function OverviewAsWritten(daily: DailyFigures, avg: Averages, funnel: Option<Metrics.FunnelReport>)
    : (r: Result<map<string, Card>, string>)
    ensures funnel.Some? ==> r.Failure?
    ensures r.Success? ==> "conversionRate" in r.value && r.value["conversionRate"].isGood == Present(false)
  {
    match SummaryAsWritten(funnel)
    case Failure(e) => Failure(e)
    case Success(s) => Success(Overview(daily, avg, s.conversionRate))
  }

  function PipelineOverview(daily: DailyFigures, avg: Averages, funnel: Option<Metrics.FunnelReport>)
    : (o: map<string, Card>)
    ensures "conversionRate" in o
    ensures o["conversionRate"].isGood == Present(FunnelSummaryOf(funnel).conversionRate >= BenchmarkWinRate)
  {
    Overview(daily, avg, FunnelSummaryOf(funnel).conversionRate)
  }
}
