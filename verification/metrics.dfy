/** The analytics of backend/src/analytics/metrics.js: the stage funnel, the pipeline
    value per stage, the lead-source distribution, the precomputed daily summary, the
    30-day leads trend and today's metrics with their anomaly rules. Each query the
    source sends to the store is an input `Query` holding the table as that query sees it. */
module Metrics {
  import opened Wrappers
  import opened Text
  import opened Tally
  import opened Records
  import IsoTime

  // ---------------------------------------------------------------------------
  // getFunnelMetrics
  // ---------------------------------------------------------------------------

  /** The funnel buckets a deal's stage can fall into. */
  datatype FunnelBucket = Qualified | DemoDone | ProposalSent | Negotiation | Won | Unbucketed

  /** A deal's stage as the funnel reads it: trimmed, lower-cased, '' when not a string. */
  function FunnelStageText(stage: Option<string>): string {
    match stage
    case Some(s) => Lower(Trim(s))
    case None => ""
  }

  /** The five audited stage names, matched exactly. */
  predicate IsAuditedFunnelStage(s: string) {
    s == "awaiting electric plan" || s == "walkthrough completed" || s == "proposal shared"
    || s == "negotiation/review" || s == "closed and advance pending" || s == "closed won"
  }

  /** The bucket of a deal: an exact match on an audited stage name first, then the
      fuzzy fallbacks `demo`, `proposal`, `negotiat`, in that order. */
  function FunnelBucketOf(stage: Option<string>): (b: FunnelBucket)
    ensures stage.None? ==> b == Unbucketed
    ensures var s := FunnelStageText(stage);
            b == Qualified <==> s == "awaiting electric plan"
    ensures var s := FunnelStageText(stage);
            b == DemoDone <==> s == "walkthrough completed" || (!IsAuditedFunnelStage(s) && Contains(s, "demo"))
    ensures var s := FunnelStageText(stage);
            b == ProposalSent <==>
              s == "proposal shared"
              || (!IsAuditedFunnelStage(s) && !Contains(s, "demo") && Contains(s, "proposal"))
    ensures var s := FunnelStageText(stage);
            b == Negotiation <==>
              s == "negotiation/review" || s == "closed and advance pending"
              || (!IsAuditedFunnelStage(s) && !Contains(s, "demo") && !Contains(s, "proposal") && Contains(s, "negotiat"))
    ensures var s := FunnelStageText(stage);
            b == Won <==> s == "closed won"
    ensures var s := FunnelStageText(stage);
            b == Unbucketed <==>
              !IsAuditedFunnelStage(s) && !Contains(s, "demo") && !Contains(s, "proposal") && !Contains(s, "negotiat")
  {
    var s := FunnelStageText(stage);
    if s == "awaiting electric plan" then Qualified
    else if s == "walkthrough completed" then DemoDone
    else if s == "proposal shared" then ProposalSent
    else if s == "negotiation/review" || s == "closed and advance pending" then Negotiation
    else if s == "closed won" then Won
    else if Contains(s, "demo") then DemoDone
    else if Contains(s, "proposal") then ProposalSent
    else if Contains(s, "negotiat") then Negotiation
    else Unbucketed
  }

  /** How far down the funnel a bucket sits (`Unbucketed` never enters it). */
  function Depth(b: FunnelBucket): nat {
    match b
    case Unbucketed => 0
    case Qualified => 1
    case DemoDone => 2
    case ProposalSent => 3
    case Negotiation => 4
    case Won => 5
  }

  /** The deal's stage is in bucket `b`. */
  function InBucket(b: FunnelBucket): DealRow -> bool {
    (d: DealRow) => FunnelBucketOf(d.stage) == b
  }

  /** The deal has passed through funnel depth `k` (its bucket is `k` or further down). */
  function ReachedDepth(k: nat): DealRow -> bool {
    (d: DealRow) => Depth(FunnelBucketOf(d.stage)) >= k
  }

  /** The per-bucket counters of the `forEach` loop. */
  datatype StageTally = StageTally(
    contacted: nat, qualified: nat, demoDone: nat, proposalSent: nat, negotiation: nat, won: nat)

  /** Runs the counting loop: every deal bumps `contacted` and at most one bucket counter. */
  function TallyStages(deals: seq<DealRow>): (t: StageTally)
    ensures t.contacted == |deals|
  {
    if |deals| == 0 then StageTally(0, 0, 0, 0, 0, 0)
    else
      var t := TallyStages(deals[1..]);
      var b := FunnelBucketOf(deals[0].stage);
      StageTally(
        t.contacted + 1,
        t.qualified + (if b == Qualified then 1 else 0),
        t.demoDone + (if b == DemoDone then 1 else 0),
        t.proposalSent + (if b == ProposalSent then 1 else 0),
        t.negotiation + (if b == Negotiation then 1 else 0),
        t.won + (if b == Won then 1 else 0))
  }

  /** The counter the loop keeps for bucket `b`. */
  function Counter(t: StageTally, b: FunnelBucket): nat {
    match b
    case Qualified => t.qualified
    case DemoDone => t.demoDone
    case ProposalSent => t.proposalSent
    case Negotiation => t.negotiation
    case Won => t.won
    case Unbucketed => 0
  }

  /** Each bucket counter ends up as the number of deals whose stage falls in that bucket. */
  lemma {:induction false} TallyCounts(deals: seq<DealRow>, b: FunnelBucket)
    requires b != Unbucketed
    ensures Counter(TallyStages(deals), b) == CountWhere(deals, InBucket(b))
    decreases |deals|
  {
    if |deals| > 0 {
      TallyCounts(deals[1..], b);
    }
  }

  /** The bucket sitting exactly at depth `k`, for 1 <= k <= 5. */
  function BucketAtDepth(k: nat): FunnelBucket
    requires 1 <= k <= 5
  {
    if k == 1 then Qualified
    else if k == 2 then DemoDone
    else if k == 3 then ProposalSent
    else if k == 4 then Negotiation
    else Won
  }

  /** Deals that reached depth `k` are those in the bucket at `k` plus those that went further. */
  lemma ReachedSplit(deals: seq<DealRow>, k: nat)
    requires 1 <= k <= 4
    ensures CountWhere(deals, ReachedDepth(k))
            == CountWhere(deals, InBucket(BucketAtDepth(k))) + CountWhere(deals, ReachedDepth(k + 1))
  {
    forall i | 0 <= i < |deals|
      ensures ReachedDepth(k)(deals[i])
              <==> InBucket(BucketAtDepth(k))(deals[i]) || ReachedDepth(k + 1)(deals[i])
      ensures !(InBucket(BucketAtDepth(k))(deals[i]) && ReachedDepth(k + 1)(deals[i]))
    {
      DepthSplit(FunnelBucketOf(deals[i].stage), k);
    }
    CountSplit(deals, ReachedDepth(k), InBucket(BucketAtDepth(k)), ReachedDepth(k + 1));
  }

  lemma DepthSplit(b: FunnelBucket, k: nat)
    requires 1 <= k <= 4
    ensures Depth(b) >= k <==> b == BucketAtDepth(k) || Depth(b) >= k + 1
    ensures !(b == BucketAtDepth(k) && Depth(b) >= k + 1)
  {
  }

  lemma ReachedWon(deals: seq<DealRow>)
    ensures CountWhere(deals, ReachedDepth(5)) == CountWhere(deals, InBucket(Won))
  {
    forall i | 0 <= i < |deals|
      ensures ReachedDepth(5)(deals[i]) <==> InBucket(Won)(deals[i])
    {
      DepthWon(FunnelBucketOf(deals[i].stage));
    }
    CountCongruent(deals, ReachedDepth(5), InBucket(Won));
  }

  lemma DepthWon(b: FunnelBucket)
    ensures Depth(b) >= 5 <==> b == Won
  {
  }

  datatype FunnelEntry = FunnelEntry(stage: string, count: nat)

  datatype FunnelReport = FunnelReport(fullFunnel: seq<FunnelEntry>, leakFunnel: seq<FunnelEntry>)

  const FullFunnelStages: seq<string> :=
    ["New Leads", "Contacted", "Qualified", "Demo Scheduled", "Demo Done",
     "Proposal Sent", "Negotiation", "Won"]

  const LeakFunnelStages: seq<string> := ["Total Leads", "Converted Leads", "Active Deals", "Won"]

  function StageNames(es: seq<FunnelEntry>): seq<string> {
    seq(|es|, i requires 0 <= i < |es| => es[i].stage)
  }

  /** The `cumulative*` variables: each stage also counts every deal that went further. */
  function CumulativeFunnel(total: nat, t: StageTally): (f: seq<FunnelEntry>)
    ensures |f| == 8 && StageNames(f) == FullFunnelStages
    ensures f[0].count == total && f[1].count == t.contacted
    ensures f[7].count == t.won
    ensures f[6].count == t.negotiation + f[7].count
    ensures f[5].count == t.proposalSent + f[6].count
    ensures f[4].count == t.demoDone + f[5].count
    ensures f[3].count == f[4].count
    ensures f[2].count == t.qualified + f[3].count
  {
    var demoScheduled := 0;
    var cumulativeWon := t.won;
    var cumulativeNegotiation := t.negotiation + cumulativeWon;
    var cumulativeProposal := t.proposalSent + cumulativeNegotiation;
    var cumulativeDemoDone := t.demoDone + cumulativeProposal;
    var cumulativeDemoSched := demoScheduled + cumulativeDemoDone;
    var cumulativeQualified := t.qualified + cumulativeDemoSched;
    var f := [
      FunnelEntry("New Leads", total),
      FunnelEntry("Contacted", t.contacted),
      FunnelEntry("Qualified",
        if cumulativeQualified >= cumulativeDemoSched then cumulativeQualified else cumulativeDemoSched),
      FunnelEntry("Demo Scheduled", cumulativeDemoSched),
      FunnelEntry("Demo Done", cumulativeDemoDone),
      FunnelEntry("Proposal Sent", cumulativeProposal),
      FunnelEntry("Negotiation", cumulativeNegotiation),
      FunnelEntry("Won", cumulativeWon)];
    assert StageNames(f) == FullFunnelStages;
    f
  }

  function LeakFunnel(total: nat, converted: nat, t: StageTally): (l: seq<FunnelEntry>)
    ensures |l| == 4 && StageNames(l) == LeakFunnelStages
    ensures l[0].count == total && l[1].count == converted
    ensures l[2].count == t.contacted && l[3].count == t.won
  {
    var l := [
      FunnelEntry("Total Leads", total),
      FunnelEntry("Converted Leads", converted),
      FunnelEntry("Active Deals", t.contacted),
      FunnelEntry("Won", t.won)];
    assert StageNames(l) == LeakFunnelStages;
    l
  }

  /** `getFunnelMetrics`: `None` models the `[]` returned when any of the three queries fails. */
  function FunnelMetrics(totalLeads: Query<Option<nat>>, convertedLeads: Query<Option<nat>>,
                         deals: Query<seq<DealRow>>): (r: Option<FunnelReport>)
    ensures r.None? <==> totalLeads.Failure? || convertedLeads.Failure? || deals.Failure?
    ensures r.Some? ==>
      var f := r.value.fullFunnel;
      var ds := deals.value;
      && |f| == 8
      && StageNames(f) == FullFunnelStages
      && f[0].count == totalLeads.value.GetOr(0)
      && f[1].count == |ds|
      && f[2].count == CountWhere(ds, ReachedDepth(1))
      && f[3].count == CountWhere(ds, ReachedDepth(2))
      && f[4].count == CountWhere(ds, ReachedDepth(2))
      && f[5].count == CountWhere(ds, ReachedDepth(3))
      && f[6].count == CountWhere(ds, ReachedDepth(4))
      && f[7].count == CountWhere(ds, InBucket(Won))
      && (forall i :: 1 <= i < 7 ==> f[i].count >= f[i + 1].count)
    ensures r.Some? ==>
      var l := r.value.leakFunnel;
      && |l| == 4
      && StageNames(l) == LeakFunnelStages
      && l[0].count == totalLeads.value.GetOr(0)
      && l[1].count == convertedLeads.value.GetOr(0)
      && l[2].count == |deals.value|
      && l[3].count == CountWhere(deals.value, InBucket(Won))
  {
    if totalLeads.Failure? || convertedLeads.Failure? || deals.Failure? then None
    else
      var ds := deals.value;
      var t := TallyStages(ds);
      TallyCounts(ds, Qualified);
      TallyCounts(ds, DemoDone);
      TallyCounts(ds, ProposalSent);
      TallyCounts(ds, Negotiation);
      TallyCounts(ds, Won);
      var total := totalLeads.value.GetOr(0);
      ReachedSplit(ds, 1);
      ReachedSplit(ds, 2);
      ReachedSplit(ds, 3);
      ReachedSplit(ds, 4);
      ReachedWon(ds);
      var f := CumulativeFunnel(total, t);
      assert f[1].count >= f[2].count;
      Some(FunnelReport(f, LeakFunnel(total, convertedLeads.value.GetOr(0), t)))
  }

  lemma NegotiationReviewText()
    ensures FunnelStageText(Some("Negotiation/Review")) == "negotiation/review"
  {
    TrimmedLiteral("Negotiation/Review");
    NegotiationReviewLower();
  }

  lemma NegotiationReviewLower()
    ensures Lower("Negotiation/Review") == "negotiation/review"
  {
    var lowered := Lower("Negotiation/Review");
    assert |lowered| == 18;
    assert lowered[..6] == "negoti";
  }

  /** A string that neither starts nor ends with white space is its own trim. */
  lemma TrimmedLiteral(s: string)
    requires |s| > 0 && !IsJsSpace(s[0]) && !IsJsSpace(s[|s| - 1])
    ensures Trim(s) == s
  {
  }

  /** A single "Negotiation/Review" deal is one negotiation and no win. */
  lemma NegotiationReviewScenario(d: DealRow)
    requires d.stage == Some("Negotiation/Review")
    ensures FunnelBucketOf(d.stage) == Negotiation
    ensures var r := FunnelMetrics(Success(Some(0)), Success(Some(0)), Success([d]));
            r.Some? && r.value.fullFunnel[6].count == 1 && r.value.fullFunnel[7].count == 0
  {
    NegotiationReviewBucket(d.stage);
    OneNegotiationDeal(d);
  }

  lemma NegotiationReviewBucket(stage: Option<string>)
    requires stage == Some("Negotiation/Review")
    ensures FunnelBucketOf(stage) == Negotiation
  {
    NegotiationReviewText();
  }

  /** The funnel of a single deal in the negotiation bucket. */
  lemma OneNegotiationDeal(d: DealRow)
    requires FunnelBucketOf(d.stage) == Negotiation
    ensures var r := FunnelMetrics(Success(Some(0)), Success(Some(0)), Success([d]));
            r.Some? && r.value.fullFunnel[6].count == 1 && r.value.fullFunnel[7].count == 0
  {
    assert [d][1..] == [];
    assert CountWhere([d], ReachedDepth(4)) == 1;
    assert CountWhere([d], InBucket(Won)) == 0;
  }

  // ---------------------------------------------------------------------------
  // getPipelineMetrics
  // ---------------------------------------------------------------------------

  datatype PipelineStage = QualificationStage | ProposalStage | NegotiationStage | WonStage | LostStage

  const StageOrder: seq<PipelineStage> :=
    [QualificationStage, ProposalStage, NegotiationStage, WonStage, LostStage]

  function StageName(p: PipelineStage): string {
    match p
    case QualificationStage => "Qualification"
    case ProposalStage => "Proposal"
    case NegotiationStage => "Negotiation"
    case WonStage => "Won"
    case LostStage => "Lost"
  }

  /** The position of a stage in `StageOrder`. */
  function StageIndex(p: PipelineStage): (i: nat)
    ensures i < 5 && StageOrder[i] == p
  {
    match p
    case QualificationStage => 0
    case ProposalStage => 1
    case NegotiationStage => 2
    case WonStage => 3
    case LostStage => 4
  }

  /** The stage text as the pipeline reads it: a non-string stage reads as 'Unknown'. */
  function PipelineStageText(stage: Option<string>): string {
    Lower(Trim(stage.GetOr("Unknown")))
  }

  /** The six stage names the pipeline matches exactly. */
  predicate IsAuditedPipelineStage(s: string) {
    s == "awaiting electric plan" || s == "proposal shared" || s == "negotiation/review"
    || s == "closed and advance pending" || s == "closed won" || s == "closed lost"
  }

  /** The pipeline stage of a deal: exact audited names first, then the fuzzy fallbacks. */
  function PipelineStageOf(stage: Option<string>): (m: Option<PipelineStage>)
    ensures var s := PipelineStageText(stage);
            m == Some(QualificationStage) <==>
              s == "awaiting electric plan" || (!IsAuditedPipelineStage(s) && Contains(s, "qualif"))
    ensures var s := PipelineStageText(stage);
            m == Some(ProposalStage) <==>
              s == "proposal shared"
              || (!IsAuditedPipelineStage(s) && !Contains(s, "qualif") && (Contains(s, "proposal") || Contains(s, "quote")))
    ensures var s := PipelineStageText(stage);
            m == Some(NegotiationStage) <==>
              s == "negotiation/review" || s == "closed and advance pending"
              || (!IsAuditedPipelineStage(s) && !Contains(s, "qualif") && !Contains(s, "proposal")
                  && !Contains(s, "quote") && Contains(s, "negotiat"))
    ensures m == Some(WonStage) <==> PipelineStageText(stage) == "closed won"
    ensures m == Some(LostStage) <==> PipelineStageText(stage) == "closed lost"
    ensures var s := PipelineStageText(stage);
            m.None? <==>
              !IsAuditedPipelineStage(s) && !Contains(s, "qualif") && !Contains(s, "proposal")
              && !Contains(s, "quote") && !Contains(s, "negotiat")
  {
    var s := PipelineStageText(stage);
    if s == "awaiting electric plan" then Some(QualificationStage)
    else if s == "proposal shared" then Some(ProposalStage)
    else if s == "negotiation/review" || s == "closed and advance pending" then Some(NegotiationStage)
    else if s == "closed won" then Some(WonStage)
    else if s == "closed lost" then Some(LostStage)
    else if Contains(s, "qualif") then Some(QualificationStage)
    else if Contains(s, "proposal") || Contains(s, "quote") then Some(ProposalStage)
    else if Contains(s, "negotiat") then Some(NegotiationStage)
    else None
  }

  /** The pipeline stage that corresponds to a funnel bucket. */
  function PipelineOfBucket(b: FunnelBucket): Option<PipelineStage> {
    match b
    case Qualified => Some(QualificationStage)
    case ProposalSent => Some(ProposalStage)
    case Negotiation => Some(NegotiationStage)
    case Won => Some(WonStage)
    case _ => None
  }

  /** On the audited stage names both use, the funnel and the pipeline agree. */
  lemma AuditedStagesAgree(stage: Option<string>)
    requires stage.Some?
    requires IsAuditedFunnelStage(FunnelStageText(stage)) && FunnelStageText(stage) != "walkthrough completed"
    ensures PipelineStageOf(stage) == PipelineOfBucket(FunnelBucketOf(stage))
  {
    assert FunnelStageText(stage) == PipelineStageText(stage);
  }

  lemma UnknownStageText()
    ensures PipelineStageText(None) == "unknown"
  {
    TrimmedLiteral("Unknown");
    UnknownLower();
  }

  lemma UnknownLower()
    ensures Lower("Unknown") == "unknown"
  {
    var lowered := Lower("Unknown");
    assert forall i | 0 <= i < 7 :: lowered[i] == "unknown"[i];
  }

  /** A stage that is not a string reads as 'Unknown', which maps to no pipeline stage. */
  lemma NonStringStageUnmapped(stage: Option<string>)
    requires stage.None?
    ensures PipelineStageOf(stage).None?
  {
    UnknownStageText();
    var u := "unknown";
    assert forall i | 0 <= i < |u| :: u[i] != 'q' && u[i] != 'p';
    AbsentInitialNotContained(u, "qualif");
    AbsentInitialNotContained(u, "proposal");
    AbsentInitialNotContained(u, "quote");
    assert !Contains(u, "negotiat");
  }

  /** `Number(d.amount) || 0`: a non-numeric amount counts as 0. */
  function DealAmount(d: DealRow): real {
    d.amount.GetOr(0.0)
  }

  function InPipelineStage(p: PipelineStage): DealRow -> bool {
    (d: DealRow) => PipelineStageOf(d.stage) == Some(p)
  }

  /** A deal whose stage maps to Qualification, Proposal or Negotiation. */
  predicate IsActiveDeal(d: DealRow) {
    var m := PipelineStageOf(d.stage);
    m.Some? && m.value != WonStage && m.value != LostStage
  }

  /** The `forEach` loop: per-stage sums (indexed as `StageOrder`) and the active total. */
  function AccumulatePipeline(deals: seq<DealRow>): (acc: (seq<real>, real))
    ensures |acc.0| == 5
    ensures forall i :: 0 <= i < 5 ==>
              acc.0[i] == SumWhere(deals, InPipelineStage(StageOrder[i]), DealAmount)
    ensures acc.1 == SumWhere(deals, IsActiveDeal, DealAmount)
  {
    if |deals| == 0 then ([0.0, 0.0, 0.0, 0.0, 0.0], 0.0)
    else
      var rest := AccumulatePipeline(deals[1..]);
      var amount := DealAmount(deals[0]);
      match PipelineStageOf(deals[0].stage)
      case None => rest
      case Some(m) =>
        var i := StageIndex(m);
        (rest.0[i := rest.0[i] + amount],
         if m != WonStage && m != LostStage then rest.1 + amount else rest.1)
  }

  datatype StageValue = StageValue(name: string, value: real)

  datatype PipelineReport = PipelineReport(stages: seq<StageValue>, totalValue: real)

  /** `getPipelineMetrics`: on a query error, no stages and a zero total. */
  function PipelineMetrics(deals: Query<seq<DealRow>>): (r: PipelineReport)
    ensures deals.Failure? ==> r == PipelineReport([], 0.0)
    ensures deals.Success? ==>
      && |r.stages| == 5
      && (forall i :: 0 <= i < 5 ==> r.stages[i].name == StageName(StageOrder[i]))
      && (forall i :: 0 <= i < 5 ==>
            r.stages[i].value == SumWhere(deals.value, InPipelineStage(StageOrder[i]), DealAmount))
      && r.totalValue == r.stages[0].value + r.stages[1].value + r.stages[2].value
  {
    match deals
    case Failure(_) => PipelineReport([], 0.0)
    case Success(ds) =>
      var acc := AccumulatePipeline(ds);
      SumSplitActive(ds);
      PipelineReport(seq(5, i requires 0 <= i < 5 => StageValue(StageName(StageOrder[i]), acc.0[i])), acc.1)
  }

  /** The active total is the Qualification, Proposal and Negotiation sums together. */
  lemma {:induction false} SumSplitActive(ds: seq<DealRow>)
    ensures SumWhere(ds, IsActiveDeal, DealAmount)
            == SumWhere(ds, InPipelineStage(QualificationStage), DealAmount)
               + SumWhere(ds, InPipelineStage(ProposalStage), DealAmount)
               + SumWhere(ds, InPipelineStage(NegotiationStage), DealAmount)
    decreases |ds|
  {
    if |ds| > 0 {
      SumSplitActive(ds[1..]);
    }
  }

  /** A deal that is Won, Lost or unmapped leaves the pipeline total where it was;
      an active deal raises it by exactly its amount. */
  lemma PipelineTotalOnAppend(ds: seq<DealRow>, d: DealRow)
    ensures PipelineMetrics(Success(ds + [d])).totalValue
            == PipelineMetrics(Success(ds)).totalValue + (if IsActiveDeal(d) then DealAmount(d) else 0.0)
  {
    var a := AccumulatePipeline(ds + [d]);
    var b := AccumulatePipeline(ds);
    SumAppend(ds, [d], IsActiveDeal, DealAmount);
    assert [d][1..] == [];
  }

  // ---------------------------------------------------------------------------
  // getSourceDistribution
  // ---------------------------------------------------------------------------

  /** A lead's source as displayed: trimmed with `_` turned into spaces; 'Unknown' when
      the stored source is not a string. */
  function SourceName(source: Option<string>): string {
    ReplaceChar(match source case Some(s) => Trim(s) case None => "Unknown", '_', ' ')
  }

  function SourceNames(leads: seq<LeadRow>): (names: seq<string>)
    ensures |names| == |leads|
    ensures forall i :: 0 <= i < |leads| ==> names[i] == SourceName(leads[i].source)
  {
    seq(|leads|, i requires 0 <= i < |leads| => SourceName(leads[i].source))
  }

  datatype SourceCount = SourceCount(name: string, value: nat)

  function CountKey(e: SourceCount): real {
    e.value as real
  }

  /** One entry per name of `keys`, holding its number of occurrences in `names`. */
  function Tallies(keys: seq<string>, names: seq<string>): (r: seq<SourceCount>)
    ensures |r| == |keys|
    ensures forall i :: 0 <= i < |r| ==> r[i] == SourceCount(keys[i], Occ(names, keys[i]))
    ensures SumKey(r, CountKey) == SumOcc(keys, names) as real
  {
    if |keys| == 0 then []
    else
      var init := Tallies(keys[..|keys| - 1], names);
      var last := SourceCount(keys[|keys| - 1], Occ(names, keys[|keys| - 1]));
      SumKeySnoc(init, last);
      init + [last]
  }

  lemma SumKeySnoc(s: seq<SourceCount>, x: SourceCount)
    ensures SumKey(s + [x], CountKey) == SumKey(s, CountKey) + CountKey(x)
  {
    SumKeyAppend(s, [x], CountKey);
    assert [x][1..] == [];
  }

  /** Some entry of `r` is named `name`. */
  predicate HasEntry(r: seq<SourceCount>, name: string) {
    exists i :: 0 <= i < |r| && r[i].name == name
  }

  /** The keyed `counts` object before sorting: one entry per distinct source name. */
  function SourceCounts(leads: seq<LeadRow>): (r: seq<SourceCount>)
    ensures forall i, j :: 0 <= i < j < |r| ==> r[i].name != r[j].name
    ensures forall i :: 0 <= i < |r| ==>
              r[i].value == Occ(SourceNames(leads), r[i].name) && r[i].value > 0
    ensures forall k :: 0 <= k < |leads| ==> HasEntry(r, SourceName(leads[k].source))
    ensures SumKey(r, CountKey) == |leads| as real
  {
    var names := SourceNames(leads);
    var r := Tallies(Distinct(names), names);
    TalliesDistinct(names);
    TalliesPositive(names);
    TalliesCover(names);
    DistinctOccSum(names);
    assert forall k :: 0 <= k < |leads| ==> names[k] == SourceName(leads[k].source);
    r
  }

  lemma TalliesDistinct(names: seq<string>)
    ensures var r := Tallies(Distinct(names), names);
            forall i, j :: 0 <= i < j < |r| ==> r[i].name != r[j].name
  {
    var keys := Distinct(names);
    var r := Tallies(keys, names);
    forall i, j | 0 <= i < j < |r|
      ensures r[i].name != r[j].name
    {
      assert r[i].name == keys[i] && r[j].name == keys[j];
    }
  }

  lemma TalliesPositive(names: seq<string>)
    ensures var r := Tallies(Distinct(names), names);
            forall i :: 0 <= i < |r| ==> r[i].value == Occ(names, r[i].name) && r[i].value > 0
  {
    var keys := Distinct(names);
    var r := Tallies(keys, names);
    forall i | 0 <= i < |r|
      ensures r[i].value == Occ(names, r[i].name) && r[i].value > 0
    {
      assert r[i] == SourceCount(keys[i], Occ(names, keys[i]));
      OccPositive(names, keys[i]);
    }
  }

  lemma TalliesCover(names: seq<string>)
    ensures var r := Tallies(Distinct(names), names);
            forall k :: 0 <= k < |names| ==> HasEntry(r, names[k])
  {
    var keys := Distinct(names);
    var r := Tallies(keys, names);
    forall k | 0 <= k < |names|
      ensures HasEntry(r, names[k])
    {
      assert names[k] in keys;
      var i :| 0 <= i < |keys| && keys[i] == names[k];
      assert r[i].name == keys[i];
    }
  }

  lemma {:induction false} OccPositive(s: seq<string>, x: string)
    requires x in s
    ensures Occ(s, x) > 0
    decreases |s|
  {
    if s[|s| - 1] != x {
      assert x in s[..|s| - 1];
      OccPositive(s[..|s| - 1], x);
    }
  }

  /** `getSourceDistribution`: the per-name counts sorted by count, largest first;
      `[]` on a query error. */
  function SourceDistribution(leads: Query<seq<LeadRow>>): (r: seq<SourceCount>)
    ensures leads.Failure? ==> r == []
    ensures leads.Success? ==> multiset(r) == multiset(SourceCounts(leads.value))
    ensures leads.Success? ==> SortedDesc(r, CountKey)
    ensures leads.Success? ==> SumKey(r, CountKey) == |leads.value| as real
  {
    match leads
    case Failure(_) => []
    case Success(ls) => SortDesc(SourceCounts(ls), CountKey)
  }

  // ---------------------------------------------------------------------------
  // syncDailyMetricsSummary
  // ---------------------------------------------------------------------------

  /** `(x || '').toLowerCase()`. */
  function LowerOrEmpty(x: Option<string>): string {
    Lower(x.GetOr(""))
  }

  function StatusContains(sub: string): LeadRow -> bool {
    (l: LeadRow) => Contains(LowerOrEmpty(l.status), sub)
  }

  function StageContains(sub: string): DealRow -> bool {
    (d: DealRow) => Contains(LowerOrEmpty(d.stage), sub)
  }

  function CreatedIn(start: Instant, end: Instant): LeadRow -> bool {
    (l: LeadRow) => l.createdTime.Some? && start <= l.createdTime.value.at < end
  }

  /** A deal counted as closed today: its stage mentions 'closed won', it has a non-empty
      `closed_time`, and that text lies in [todayIso, tomorrowIso) by string comparison. */
  function ClosedWonBetween(today: string, tomorrow: string): DealRow -> bool {
    (d: DealRow) => Contains(LowerOrEmpty(d.stage), "closed won")
         && d.closedTime.Some? && d.closedTime.value.text != ""
         && !LexLess(d.closedTime.value.text, today) && LexLess(d.closedTime.value.text, tomorrow)
  }

  /** Sum of `Number(d.amount) || 0` over a list of deals (`reduce`). */
  function TotalAmount(ds: seq<DealRow>): real {
    SumKey(ds, DealAmount)
  }

  /** The row `syncDailyMetricsSummary` computes; `None` when any query fails. The
      new-lead count is taken by the store over [today, tomorrow) on instants, the
      closed-today test compares the ISO texts. */
  function DailySummaryPayload(todayLeads: Query<seq<LeadRow>>, leads: Query<seq<LeadRow>>,
                               deals: Query<seq<DealRow>>, today: Stamp, tomorrow: Stamp)
    : (r: Option<DailySummary>)
    ensures r.None? <==> todayLeads.Failure? || leads.Failure? || deals.Failure?
    ensures r.Some? ==>
      var s := r.value;
      var ds := deals.value;
      && s.newLeadsToday == CountWhere(todayLeads.value, CreatedIn(today.at, tomorrow.at))
      && s.dealsClosed == CountWhere(ds, ClosedWonBetween(today.text, tomorrow.text))
      && s.dealAmountWon == SumWhere(ds, ClosedWonBetween(today.text, tomorrow.text), DealAmount)
      && s.dealAmountLost == SumWhere(ds, StageContains("closed lost"), DealAmount)
      && s.totalRevenue == s.dealAmountWon
      && s.dealsClosed <= CountWhere(ds, StageContains("closed won"))
      && s.leadsContacted == CountWhere(leads.value, StatusContains("contact"))
      && s.qualifiedLeads == CountWhere(leads.value, StatusContains("qualif"))
      && s.demosScheduled == CountWhere(ds, StageContains("demo scheduled"))
      && s.demosHeld == CountWhere(ds, StageContains("demo held"))
      && s.proposalsSent == CountWhere(ds, StageContains("proposal"))
      && s.negotiationsActive == CountWhere(ds, StageContains("negotiation"))
  {
    if todayLeads.Failure? || leads.Failure? || deals.Failure? then None
    else
      var ls := leads.value;
      var ds := deals.value;
      var closedToday := Filter(ds, ClosedWonBetween(today.text, tomorrow.text));
      var won := TotalAmount(closedToday);
      SumKeyFilter(ds, ClosedWonBetween(today.text, tomorrow.text), DealAmount);
      SumKeyFilter(ds, StageContains("closed lost"), DealAmount);
      ClosedTodayAreWon(ds, today.text, tomorrow.text);
      Some(DailySummary(
        newLeadsToday := |Filter(todayLeads.value, CreatedIn(today.at, tomorrow.at))|,
        leadsContacted := |Filter(ls, StatusContains("contact"))|,
        qualifiedLeads := |Filter(ls, StatusContains("qualif"))|,
        demosScheduled := |Filter(ds, StageContains("demo scheduled"))|,
        demosHeld := |Filter(ds, StageContains("demo held"))|,
        proposalsSent := |Filter(ds, StageContains("proposal"))|,
        negotiationsActive := |Filter(ds, StageContains("negotiation"))|,
        dealsClosed := |closedToday|,
        dealAmountWon := won,
        dealAmountLost := TotalAmount(Filter(ds, StageContains("closed lost"))),
        totalRevenue := won))
  }

  lemma {:induction false} ClosedTodayAreWon(ds: seq<DealRow>, today: string, tomorrow: string)
    ensures CountWhere(ds, ClosedWonBetween(today, tomorrow)) <= CountWhere(ds, StageContains("closed won"))
    decreases |ds|
  {
    if |ds| > 0 {
      ClosedTodayAreWon(ds[1..], today, tomorrow);
    }
  }

  /** The summary table after a sync: the old rows are deleted, then the fresh row is
      inserted; nothing changes when the summary could not be computed. The outcome of
      the delete is never looked at, so a failed delete leaves the old rows in place and
      the insert still appends the fresh row after them. */
  function SummaryTableAfter(table: seq<DailySummary>, payload: Option<DailySummary>,
                             deleted: bool, inserted: bool): (t: seq<DailySummary>)
    ensures payload.None? ==> t == table
    ensures payload.Some? && deleted && inserted ==> t == [payload.value]
    ensures payload.Some? && deleted && !inserted ==> t == []
    ensures payload.Some? && !deleted ==> t == table + (if inserted then [payload.value] else [])
  {
    match payload
    case None => table
    case Some(p) => (if deleted then [] else table) + (if inserted then [p] else [])
  }

  /** After a delete that failed unnoticed, the first row (the one a `.limit(1)` reader
      takes) is still the stale one; only a successful delete followed by the insert
      puts the fresh row first. */
  lemma FailedDeleteKeepsStaleFirst(table: seq<DailySummary>, p: DailySummary, inserted: bool)
    requires |table| > 0
    ensures var t := SummaryTableAfter(table, Some(p), false, inserted);
            && |t| == |table| + (if inserted then 1 else 0)
            && t[0] == table[0]
            && (inserted ==> t[|t| - 1] == p)
    ensures SummaryTableAfter(table, Some(p), true, true)[0] == p
  {
  }

  // ---------------------------------------------------------------------------
  // getLeadsTrend
  // ---------------------------------------------------------------------------

  /** The UTC calendar day (days since 1970-01-01) of an instant. */
  function UtcDay(t: Instant): int {
    t / MsPerDay
  }

  /** The date part of a lead's `created_time`, `None` when it is missing or empty. */
  function CreatedDay(l: LeadRow): Option<int> {
    match l.createdTime
    case Some(st) => if st.text != "" then Some(UtcDay(st.at)) else None
    case None => None
  }

  function OnDay(day: int): LeadRow -> bool {
    (l: LeadRow) => CreatedDay(l) == Some(day)
  }

  /** `trend[date] || 0`. */
  function Lookup(m: map<int, nat>, day: int): nat {
    if day in m then m[day] else 0
  }

  /** The `trend` object: for each date, the number of leads created that day. */
  function TrendCounts(leads: seq<LeadRow>): (m: map<int, nat>)
    ensures forall day :: Lookup(m, day) == CountWhere(leads, OnDay(day))
  {
    if |leads| == 0 then map[]
    else
      var m := TrendCounts(leads[1..]);
      match CreatedDay(leads[0])
      case None => m
      case Some(day) => m[day := Lookup(m, day) + 1]
  }

  datatype TrendPoint = TrendPoint(day: int, leads: nat)

  /** `getLeadsTrend`, given `back(k)`: the instant `setDate(today.getDate() - k)` gives,
      now's wall-clock time k local calendar days earlier. The point for k days back is
      dated with the UTC date of that instant (`toISOString().split('T')[0]`); points run
      from 29 days back to today, with 0 for days without leads; `[]` on a query error. */
  function LeadsTrend(leads: Query<seq<LeadRow>>, back: int -> Instant): (r: seq<TrendPoint>)
    ensures leads.Failure? ==> r == []
    ensures leads.Success? ==> |r| == 30
    ensures leads.Success? ==> forall i :: 0 <= i < |r| ==> r[i].day == UtcDay(back(29 - i))
    ensures leads.Success? ==> forall i :: 0 <= i < |r| ==> r[i].leads == CountWhere(leads.value, OnDay(r[i].day))
  {
    match leads
    case Failure(_) => []
    case Success(ls) =>
      var trend := TrendCounts(ls);
      seq(30, i requires 0 <= i < 30 => TrendPoint(UtcDay(back(29 - i)), Lookup(trend, UtcDay(back(29 - i)))))
  }

  /** A day of the window on which no lead was created shows 0. */
  lemma TrendZeroOnEmptyDay(ls: seq<LeadRow>, back: int -> Instant, i: nat)
    requires i < 30
    requires forall k :: 0 <= k < |ls| ==> CreatedDay(ls[k]) != Some(UtcDay(back(29 - i)))
    ensures LeadsTrend(Success(ls), back)[i].leads == 0
  {
    CountZero(ls, OnDay(UtcDay(back(29 - i))));
  }

  /** Local calendar days of 24 hours each, as in a zone without daylight saving. */
  function FixedLengthDays(now: Instant): int -> Instant {
    (k: int) => now - k * MsPerDay
  }

  lemma DaysBack(now: Instant, k: int)
    ensures UtcDay(now - k * MsPerDay) == UtcDay(now) - k
  {
    var q := now / MsPerDay;
    assert now - k * MsPerDay == (q - k) * MsPerDay + now % MsPerDay;
  }

  /** Where local days last 24 hours (UTC+5:30, say), the points are the 30 consecutive
      UTC days ending with today's, oldest first. */
  lemma TrendDaysWithoutDaylightSaving(ls: seq<LeadRow>, now: Instant)
    ensures var r := LeadsTrend(Success(ls), FixedLengthDays(now));
            && (forall i :: 0 <= i < |r| ==> r[i].day == UtcDay(now) - 29 + i)
            && (forall i, j :: 0 <= i < j < |r| ==> r[i].day < r[j].day)
  {
    var r := LeadsTrend(Success(ls), FixedLengthDays(now));
    forall i | 0 <= i < |r|
      ensures r[i].day == UtcDay(now) - 29 + i
    {
      DaysBack(now, 29 - i);
    }
  }

  /** Spring forward in a zone one hour ahead of UTC in summer: the local days from three
      back lie before the switch and so one hour later in UTC. */
  function SpringForward(now: Instant): int -> Instant {
    (k: int) => if k >= 3 then now - k * MsPerDay + MsPerHour else now - k * MsPerDay
  }

  /** Run at 00:30 summer time (23:30 UTC), two days after the switch, the points three
      and two days back carry the same UTC date, so the 30 points cover only 29 dates. */
  lemma DaylightSavingRepeatsDay(ls: seq<LeadRow>, now: Instant)
    requires now % MsPerDay == 23 * MsPerHour + 30 * MsPerMinute
    ensures var r := LeadsTrend(Success(ls), SpringForward(now));
            r[26].day == r[27].day
  {
    var q := now / MsPerDay;
    assert now - 3 * MsPerDay + MsPerHour == (q - 2) * MsPerDay + 30 * MsPerMinute;
    assert now - 2 * MsPerDay == (q - 2) * MsPerDay + 23 * MsPerHour + 30 * MsPerMinute;
  }

  // ---------------------------------------------------------------------------
  // getDailyMetrics
  // ---------------------------------------------------------------------------

  datatype Anomaly = NoDealsClosedToday

  datatype FocusArea = HealthyPipeline(pipelineValue: real)

  datatype DailyReport = DailyReport(
    date: string, newLeads: nat, dealsClosed: nat, revenueClosed: real, pipelineValue: real,
    anomalies: seq<Anomaly>, focusAreas: seq<FocusArea>)

  /** The store's `stage in ('Closed Won','Closed')` and `closed_time` in [today, tomorrow). */
  function ClosedInDay(start: Instant, end: Instant): DealRow -> bool {
    (d: DealRow) => (d.stage == Some("Closed Won") || d.stage == Some("Closed"))
         && d.closedTime.Some? && start <= d.closedTime.value.at < end
  }

  /** The store's `not stage in ('Closed Won','Closed Lost')`; a null stage is not selected. */
  predicate IsOpenStage(d: DealRow) {
    d.stage.Some? && d.stage.value != "Closed Won" && d.stage.value != "Closed Lost"
  }

  const HealthyPipelineThreshold: real := 100000.0

  /** `getDailyMetrics` for the local day [todayStart, tomorrowStart): each failing query
      throws its error, the first one first. The report is dated with the UTC date of
      `todayStart`, which east of UTC is the day before the local one
      (`IsoTime.IstMidnightIsoDate`). Both bounds are inputs because `setDate(+1)`
      moves the local calendar day, which lasts 23 or 25 hours across a daylight-saving
      change. */
  function DailyMetrics(leads: Query<seq<LeadRow>>, closedDeals: Query<seq<DealRow>>,
                        activeDeals: Query<seq<DealRow>>, todayStart: Instant, tomorrowStart: Instant)
    : (r: Result<DailyReport, string>)
    ensures leads.Failure? ==> r == Failure(leads.error)
    ensures leads.Success? && closedDeals.Failure? ==> r == Failure(closedDeals.error)
    ensures leads.Success? && closedDeals.Success? && activeDeals.Failure? ==> r == Failure(activeDeals.error)
    ensures r.Success? ==>
      && r.value.date == IsoTime.DateText(UtcDay(todayStart))
      && r.value.newLeads == CountWhere(leads.value, CreatedIn(todayStart, tomorrowStart))
      && r.value.dealsClosed == CountWhere(closedDeals.value, ClosedInDay(todayStart, tomorrowStart))
      && r.value.revenueClosed == SumWhere(closedDeals.value, ClosedInDay(todayStart, tomorrowStart), DealAmount)
      && r.value.pipelineValue == SumWhere(activeDeals.value, IsOpenStage, DealAmount)
      && (r.value.anomalies == [NoDealsClosedToday] <==> r.value.dealsClosed == 0)
      && (r.value.anomalies == [] <==> r.value.dealsClosed > 0)
      && ((r.value.focusAreas == [HealthyPipeline(r.value.pipelineValue)])
            <==> r.value.pipelineValue > HealthyPipelineThreshold)
      && (r.value.focusAreas == [] <==> r.value.pipelineValue <= HealthyPipelineThreshold)
  {
    if leads.Failure? then Failure(leads.error)
    else if closedDeals.Failure? then Failure(closedDeals.error)
    else if activeDeals.Failure? then Failure(activeDeals.error)
    else
      var closed := Filter(closedDeals.value, ClosedInDay(todayStart, tomorrowStart));
      var active := Filter(activeDeals.value, IsOpenStage);
      SumKeyFilter(closedDeals.value, ClosedInDay(todayStart, tomorrowStart), DealAmount);
      SumKeyFilter(activeDeals.value, IsOpenStage, DealAmount);
      var pipeline := TotalAmount(active);
      Success(DailyReport(
        date := IsoTime.IsoDate(todayStart),
        newLeads := |Filter(leads.value, CreatedIn(todayStart, tomorrowStart))|,
        dealsClosed := |closed|,
        revenueClosed := TotalAmount(closed),
        pipelineValue := pipeline,
        anomalies := if |closed| == 0 then [NoDealsClosedToday] else [],
        focusAreas := if pipeline > HealthyPipelineThreshold then [HealthyPipeline(pipeline)] else []))
  }

  /** The "no deals closed" anomaly is raised exactly when no deal of the table closed
      as won (or plain closed) within today. */
  lemma NoDealsAnomalyIff(leads: seq<LeadRow>, deals: seq<DealRow>, active: seq<DealRow>,
                          todayStart: Instant, tomorrowStart: Instant)
    ensures var r := DailyMetrics(Success(leads), Success(deals), Success(active), todayStart, tomorrowStart);
            r.Success? &&
            ((r.value.anomalies == [NoDealsClosedToday])
              <==> forall k :: 0 <= k < |deals| ==> !ClosedInDay(todayStart, tomorrowStart)(deals[k]))
  {
    CountZero(deals, ClosedInDay(todayStart, tomorrowStart));
  }
}
