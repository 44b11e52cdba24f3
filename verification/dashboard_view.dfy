/** The data preparation of the Streamlit dashboard (dashboard.py): the coercion of
    deal columns, the conversion funnel built from case-insensitive stage matches,
    the top lead sources, revenue by owner, the choice of the latest AI summary, and
    when a metric tile shows its change. Layout and charts are not modelled. */
module DashboardView {
  import opened Wrappers
  import opened Text
  import opened Tally
  import opened Records
  import Metrics
  import Scheduler

  // ---------------------------------------------------------------------------
  // Column coercion
  // ---------------------------------------------------------------------------

  /** `deals["stage"].astype(str)`: a missing stage becomes the text 'None'. */
  function StageStr(stage: Option<string>): (s: string)
    ensures stage.Some? ==> s == stage.value
    ensures stage.None? ==> s == "None"
  {
    match stage
    case Some(v) => v
    case None => "None"
  }

  /** `pd.to_numeric(deals["amount"], errors="coerce").fillna(0)`. */
  function AmountNum(amount: Option<real>): (a: real)
    ensures amount.Some? ==> a == amount.value
    ensures amount.None? ==> a == 0.0
  {
    amount.GetOr(0.0)
  }

  /** `series.str.contains(p, case=False)` on a plain pattern. */
  predicate ContainsNoCase(s: string, p: string) {
    Contains(Lower(s), Lower(p))
  }

  /** The deals whose coerced stage mentions `p`, in any case. */
  function StageMatches(p: string): DealRow -> bool {
    (d: DealRow) => ContainsNoCase(StageStr(d.stage), p)
  }

  /** A deal without a stage matches none of the dashboard's stage patterns. */
  lemma MissingStageNeverMatches(d: DealRow)
    requires d.stage.None?
    ensures !StageMatches("closed won")(d)
    ensures !StageMatches("negotiation/review")(d)
    ensures !StageMatches("proposal shared")(d)
    ensures !StageMatches("Awaiting Electric Plan")(d)
  {
    // Every pattern is longer than the four characters of 'None'.
    assert |Lower("None")| == 4;
  }

  // ---------------------------------------------------------------------------
  // The conversion funnel
  // ---------------------------------------------------------------------------

  datatype FunnelRow = FunnelRow(stage: string, count: nat)

  const FunnelStages: seq<string> :=
    ["Total Leads", "Contacted", "Qualified", "Proposal Shared", "Negotiation", "Closed Won"]

  function RowStages(f: seq<FunnelRow>): seq<string> {
    seq(|f|, i requires 0 <= i < |f| => f[i].stage)
  }

  /** The funnel drawn on the pipeline tab; none is drawn without leads or deals. */
  function DashboardFunnel(leads: seq<LeadRow>, deals: seq<DealRow>): (r: Option<seq<FunnelRow>>)
    ensures r.None? <==> |leads| == 0 || |deals| == 0
    ensures r.Some? ==>
      var f := r.value;
      && |f| == 6 && RowStages(f) == FunnelStages
      && f[0].count == |leads|
      && f[1].count == |deals|
      && f[5].count == CountWhere(deals, StageMatches("closed won"))
      && f[4].count == CountWhere(deals, StageMatches("negotiation/review")) + f[5].count
      && f[3].count == CountWhere(deals, StageMatches("proposal shared")) + f[4].count
      && f[2].count == CountWhere(deals, StageMatches("Awaiting Electric Plan")) + f[3].count
      && f[2].count >= f[3].count >= f[4].count >= f[5].count
  {
    if |leads| == 0 || |deals| == 0 then None
    else
      var won := CountWhere(deals, StageMatches("closed won"));
      var negotiation := CountWhere(deals, StageMatches("negotiation/review"));
      var proposal := CountWhere(deals, StageMatches("proposal shared"));
      var awaiting := CountWhere(deals, StageMatches("Awaiting Electric Plan"));
      var f := [
        FunnelRow("Total Leads", |leads|),
        FunnelRow("Contacted", |deals|),
        FunnelRow("Qualified", awaiting + proposal + negotiation + won),
        FunnelRow("Proposal Shared", proposal + negotiation + won),
        FunnelRow("Negotiation", negotiation + won),
        FunnelRow("Closed Won", won)];
      assert RowStages(f) == FunnelStages;
      Some(f)
  }

  /** The four patterns can all match one deal, which is then counted once for each
      at the Qualified row. When every deal matches at most one pattern, Qualified
      never exceeds Contacted. */
  lemma QualifiedWithinContacted(leads: seq<LeadRow>, deals: seq<DealRow>)
    requires |leads| > 0 && |deals| > 0
    requires forall i :: 0 <= i < |deals| ==>
               var d := deals[i];
               (if StageMatches("closed won")(d) then 1 else 0) + (if StageMatches("negotiation/review")(d) then 1 else 0)
               + (if StageMatches("proposal shared")(d) then 1 else 0)
               + (if StageMatches("Awaiting Electric Plan")(d) then 1 else 0) <= 1
    ensures DashboardFunnel(leads, deals).value[2].count <= DashboardFunnel(leads, deals).value[1].count
  {
    var p1 := StageMatches("closed won");
    var p2 := StageMatches("negotiation/review");
    var p3 := StageMatches("proposal shared");
    var p4 := StageMatches("Awaiting Electric Plan");
    var q12 := (d: DealRow) => p1(d) || p2(d);
    var q123 := (d: DealRow) => q12(d) || p3(d);
    var q1234 := (d: DealRow) => q123(d) || p4(d);
    CountSplit(deals, q12, p1, p2);
    CountSplit(deals, q123, q12, p3);
    CountSplit(deals, q1234, q123, p4);
  }

  // ---------------------------------------------------------------------------
  // Lead sources
  // ---------------------------------------------------------------------------

  /** The label a source gets: `_` to space, then title case. */
  function SourceLabel(s: string): (l: string)
    ensures |l| == |s|
    ensures forall i :: 0 <= i < |l| ==> l[i] != '_'
    ensures forall i :: 0 <= i < |s| ==> l[i] == LabelChar(s, i)
  {
    var l := TitleCase(ReplaceChar(s, '_', ' '));
    assert forall i | 0 <= i < |s| :: l[i] == LabelChar(s, i) by {
      forall i | 0 <= i < |s|
        ensures l[i] == LabelChar(s, i)
      {
        LabelAt(s, i);
      }
    }
    l
  }

  /** Character `i` of a label: a space for `_`, upper case at the start of a run of
      letters, lower case inside one. */
  function LabelChar(s: string, i: nat): char
    requires i < |s|
  {
    if s[i] == '_' then ' '
    else if i == 0 || !IsAsciiLetter(s[i - 1]) then UpperChar(s[i])
    else LowerChar(s[i])
  }

  lemma LabelAt(s: string, i: nat)
    requires i < |s|
    ensures TitleCase(ReplaceChar(s, '_', ' '))[i] == LabelChar(s, i)
  {
    var spaced := ReplaceChar(s, '_', ' ');
    assert spaced[i] == (if s[i] == '_' then ' ' else s[i]);
    if i > 0 {
      assert spaced[i - 1] == (if s[i - 1] == '_' then ' ' else s[i - 1]);
    }
  }

  /** Relabelling a label changes nothing: the label is already spaced and title-cased. */
  lemma SourceLabelIdempotent(s: string)
    ensures SourceLabel(SourceLabel(s)) == SourceLabel(s)
  {
    var l := SourceLabel(s);
    forall i | 0 <= i < |l|
      ensures SourceLabel(l)[i] == l[i]
    {
      LabelCharStable(s, l, i);
    }
  }

  lemma LabelCharStable(s: string, l: string, i: nat)
    requires l == SourceLabel(s) && i < |l|
    ensures LabelChar(l, i) == l[i]
  {
    assert l[i] == LabelChar(s, i);
    if i > 0 {
      assert l[i - 1] == LabelChar(s, i - 1);
    }
  }

  /** The sources `value_counts` counts: missing ones are dropped. */
  function PresentSources(leads: seq<LeadRow>): (r: seq<string>)
    ensures |r| <= |leads|
    ensures forall i :: 0 <= i < |leads| && leads[i].source.Some? ==> leads[i].source.value in r
  {
    if |leads| == 0 then []
    else
      var init := PresentSources(leads[..|leads| - 1]);
      var last := leads[|leads| - 1];
      assert forall i :: 0 <= i < |leads| - 1 ==> leads[i] == leads[..|leads| - 1][i];
      if last.source.Some? then init + [last.source.value] else init
  }

  /** `value_counts()`: one entry per distinct present source, largest count first. */
  function ValueCounts(leads: seq<LeadRow>): (vc: seq<Metrics.SourceCount>)
    ensures multiset(vc) == multiset(Metrics.Tallies(Distinct(PresentSources(leads)), PresentSources(leads)))
    ensures SortedDesc(vc, Metrics.CountKey)
    ensures SumKey(vc, Metrics.CountKey) == |PresentSources(leads)| as real
  {
    var names := PresentSources(leads);
    DistinctOccSum(names);
    SortDesc(Metrics.Tallies(Distinct(names), names), Metrics.CountKey)
  }

  datatype SourceSlice = SourceSlice(caption: string, count: nat)

  /** The slices of the source pie: the first six counts, relabelled. */
  function SourceSlices(leads: seq<LeadRow>): (r: seq<SourceSlice>)
    ensures var vc := ValueCounts(leads);
            && |r| == (if |vc| < 6 then |vc| else 6)
            && forall i :: 0 <= i < |r| ==> r[i] == SourceSlice(SourceLabel(vc[i].name), vc[i].value)
  {
    var vc := ValueCounts(leads);
    var n := if |vc| < 6 then |vc| else 6;
    seq(n, i requires 0 <= i < n => Slice(vc[i]))
  }

  /** The slice of one count. */
  function Slice(e: Metrics.SourceCount): SourceSlice {
    SourceSlice(SourceLabel(e.name), e.value)
  }

  /** Every present source is counted, with its number of leads. */
  lemma SourceCounted(leads: seq<LeadRow>, s: string)
    requires s in PresentSources(leads)
    ensures var vc := ValueCounts(leads);
            exists j :: 0 <= j < |vc| && vc[j] == Metrics.SourceCount(s, Occ(PresentSources(leads), s))
  {
    var names := PresentSources(leads);
    var keys := Distinct(names);
    var t := Metrics.Tallies(keys, names);
    var k :| 0 <= k < |keys| && keys[k] == s;
    assert t[k] in multiset(ValueCounts(leads));
  }

  /** A count left out of the six slices is no larger than any slice shown. */
  lemma HiddenSourcesNoLarger(leads: seq<LeadRow>, j: nat)
    requires 6 <= j < |ValueCounts(leads)|
    ensures forall i :: 0 <= i < |SourceSlices(leads)| ==>
              SourceSlices(leads)[i].count >= ValueCounts(leads)[j].value
  {
    var vc := ValueCounts(leads);
    forall i | 0 <= i < |SourceSlices(leads)|
      ensures SourceSlices(leads)[i].count >= vc[j].value
    {
      assert Metrics.CountKey(vc[i]) >= Metrics.CountKey(vc[j]);
    }
  }

  // ---------------------------------------------------------------------------
  // Revenue by owner
  // ---------------------------------------------------------------------------

  /** The won deals that `groupby("owner_name")` keeps: a missing owner is dropped. */
  function OwnedWon(deals: seq<DealRow>): seq<DealRow> {
    Filter(Filter(deals, StageMatches("closed won")), (d: DealRow) => d.ownerName.Some?)
  }

  function OwnerName(d: DealRow): string {
    d.ownerName.GetOr("")
  }

  function OwnerNames(ds: seq<DealRow>): (r: seq<string>)
    ensures |r| == |ds|
    ensures forall i :: 0 <= i < |ds| ==> r[i] == OwnerName(ds[i])
  {
    seq(|ds|, i requires 0 <= i < |ds| => OwnerName(ds[i]))
  }

  /** The coerced amounts of `ds`, summed from the back. */
  function AmountTotal(ds: seq<DealRow>): real {
    if |ds| == 0 then 0.0 else AmountTotal(ds[..|ds| - 1]) + AmountNum(ds[|ds| - 1].amount)
  }

  /** The coerced amounts of the deals of owner `o`, summed from the back. */
  function OwnerTotal(ds: seq<DealRow>, o: string): real {
    if |ds| == 0 then 0.0
    else OwnerTotal(ds[..|ds| - 1], o) + (if OwnerName(ds[|ds| - 1]) == o then AmountNum(ds[|ds| - 1].amount) else 0.0)
  }

  /** The owner totals of the owners `ks`, summed. */
  function TotalOver(ks: seq<string>, ds: seq<DealRow>): real {
    if |ks| == 0 then 0.0 else OwnerTotal(ds, ks[0]) + TotalOver(ks[1..], ds)
  }

  lemma OwnerTotalSnoc(ds: seq<DealRow>, d: DealRow, o: string)
    ensures OwnerTotal(ds + [d], o) == OwnerTotal(ds, o) + (if OwnerName(d) == o then AmountNum(d.amount) else 0.0)
  {
    assert (ds + [d])[..|ds|] == ds;
  }

  lemma {:induction false} OwnerTotalAbsent(ds: seq<DealRow>, o: string)
    requires o !in OwnerNames(ds)
    ensures OwnerTotal(ds, o) == 0.0
    decreases |ds|
  {
    if |ds| > 0 {
      assert OwnerNames(ds[..|ds| - 1]) == OwnerNames(ds)[..|ds| - 1];
      OwnerTotalAbsent(ds[..|ds| - 1], o);
    }
  }

  /** One more deal adds its amount once to the total over distinct owners when its
      owner is among them, and not at all otherwise. */
  lemma {:induction false} TotalOverSnoc(ks: seq<string>, ds: seq<DealRow>, d: DealRow)
    requires NoDuplicates(ks)
    ensures TotalOver(ks, ds + [d]) == TotalOver(ks, ds) + (if OwnerName(d) in ks then AmountNum(d.amount) else 0.0)
    decreases |ks|
  {
    if |ks| > 0 {
      OwnerTotalSnoc(ds, d, ks[0]);
      TotalOverSnoc(ks[1..], ds, d);
      assert OwnerName(d) in ks <==> OwnerName(d) == ks[0] || OwnerName(d) in ks[1..];
      assert ks[0] !in ks[1..];
    }
  }

  lemma {:induction false} TotalOverAppendKey(ks: seq<string>, k: string, ds: seq<DealRow>)
    ensures TotalOver(ks + [k], ds) == TotalOver(ks, ds) + OwnerTotal(ds, k)
    decreases |ks|
  {
    if |ks| > 0 {
      assert (ks + [k])[1..] == ks[1..] + [k];
      TotalOverAppendKey(ks[1..], k, ds);
    } else {
      assert ([k])[1..] == [];
    }
  }

  /** Summing the per-owner totals over the distinct owners gives the total amount. */
  lemma {:induction false} DistinctOwnersTotal(ds: seq<DealRow>)
    ensures TotalOver(Distinct(OwnerNames(ds)), ds) == AmountTotal(ds)
    decreases |ds|
  {
    if |ds| > 0 {
      var init := ds[..|ds| - 1];
      var d := ds[|ds| - 1];
      assert ds == init + [d];
      var names := OwnerNames(ds);
      assert OwnerNames(init) == names[..|ds| - 1];
      var dk := Distinct(OwnerNames(init));
      DistinctOwnersTotal(init);
      TotalOverSnoc(dk, init, d);
      if OwnerName(d) !in dk {
        NewOwnerTotal(init, d);
      }
    }
  }

  /** A deal whose owner is new contributes its whole amount as that owner's total. */
  lemma NewOwnerTotal(init: seq<DealRow>, d: DealRow)
    requires OwnerName(d) !in Distinct(OwnerNames(init))
    ensures TotalOver(Distinct(OwnerNames(init)) + [OwnerName(d)], init + [d])
         == TotalOver(Distinct(OwnerNames(init)), init + [d]) + AmountNum(d.amount)
  {
    var o := OwnerName(d);
    assert o !in OwnerNames(init);
    OwnerTotalAbsent(init, o);
    OwnerTotalSnoc(init, d, o);
    TotalOverAppendKey(Distinct(OwnerNames(init)), o, init + [d]);
  }

  datatype OwnerRevenue = OwnerRevenue(owner: string, amount: real)

  function RevenueKey(e: OwnerRevenue): real {
    e.amount
  }

  /** One entry per owner of `ks`, holding that owner's total over `ds`. */
  function PerOwner(ks: seq<string>, ds: seq<DealRow>): (r: seq<OwnerRevenue>)
    ensures |r| == |ks|
    ensures forall i :: 0 <= i < |ks| ==> r[i] == OwnerRevenue(ks[i], OwnerTotal(ds, ks[i]))
    ensures SumKey(r, RevenueKey) == TotalOver(ks, ds)
  {
    if |ks| == 0 then []
    else
      var rest := PerOwner(ks[1..], ds);
      assert ([OwnerRevenue(ks[0], OwnerTotal(ds, ks[0]))] + rest)[1..] == rest;
      [OwnerRevenue(ks[0], OwnerTotal(ds, ks[0]))] + rest
  }

  /** The revenue bar chart: per owner of a won deal, the sum of amounts over their won
      deals, largest first; together the bars add up to every owned won deal's amount. */
  function RevenueByOwner(deals: seq<DealRow>): (r: seq<OwnerRevenue>)
    ensures var owned := OwnedWon(deals);
            multiset(r) == multiset(PerOwner(Distinct(OwnerNames(owned)), owned))
    ensures SortedDesc(r, RevenueKey)
    ensures SumKey(r, RevenueKey) == AmountTotal(OwnedWon(deals))
  {
    var owned := OwnedWon(deals);
    DistinctOwnersTotal(owned);
    SortDesc(PerOwner(Distinct(OwnerNames(owned)), owned), RevenueKey)
  }

  /** Each owner of a won deal has a bar, holding the sum of the amounts of that owner's
      won deals. */
  lemma OwnerHasBar(deals: seq<DealRow>, i: nat)
    requires i < |deals| && StageMatches("closed won")(deals[i]) && deals[i].ownerName.Some?
    ensures exists j :: 0 <= j < |RevenueByOwner(deals)| &&
              RevenueByOwner(deals)[j] == OwnerRevenue(deals[i].ownerName.value,
                                                       OwnerTotal(OwnedWon(deals), deals[i].ownerName.value))
  {
    var won := Filter(deals, StageMatches("closed won"));
    var owned := OwnedWon(deals);
    var o := deals[i].ownerName.value;
    FilterMembership(deals, StageMatches("closed won"), deals[i]);
    FilterMembership(won, (d: DealRow) => d.ownerName.Some?, deals[i]);
    var k :| 0 <= k < |owned| && owned[k] == deals[i];
    assert OwnerNames(owned)[k] == o;
    var keys := Distinct(OwnerNames(owned));
    var m :| 0 <= m < |keys| && keys[m] == o;
    var per := PerOwner(keys, owned);
    assert per[m] in multiset(RevenueByOwner(deals));
  }

  // ---------------------------------------------------------------------------
  // The latest AI summary
  // ---------------------------------------------------------------------------

  lemma NotBelowMax(a: string, b: string, c: string)
    requires !LexLess(a, b) && !LexLess(b, c)
    ensures !LexLess(a, c)
  {
    LexLessTotal(b, c);
    if LexLess(a, c) && LexLess(c, b) {
      LexLessTransitive(a, c, b);
    }
  }

  lemma LessNotAbove(a: string, b: string)
    requires LexLess(a, b)
    ensures !LexLess(b, a)
  {
    if LexLess(b, a) {
      LexLessTransitive(a, b, a);
      LexLessIrreflexive(a);
    }
  }

  lemma LatestStep(x: AiRow, best: AiRow, tail: seq<AiRow>)
    requires forall j :: 0 <= j < |tail| ==> !LexLess(best.createdAt.text, tail[j].createdAt.text)
    ensures LexLess(x.createdAt.text, best.createdAt.text) ==> !LexLess(best.createdAt.text, x.createdAt.text)
    ensures !LexLess(x.createdAt.text, best.createdAt.text) ==>
              forall j :: 0 <= j < |tail| ==> !LexLess(x.createdAt.text, tail[j].createdAt.text)
  {
    if LexLess(x.createdAt.text, best.createdAt.text) {
      LessNotAbove(x.createdAt.text, best.createdAt.text);
    } else {
      forall j | 0 <= j < |tail|
        ensures !LexLess(x.createdAt.text, tail[j].createdAt.text)
      {
        NotBelowMax(x.createdAt.text, best.createdAt.text, tail[j].createdAt.text);
      }
    }
  }

  /** A row whose `created_at` text no other row's exceeds. */
  function LatestRow(rows: seq<AiRow>): (r: AiRow)
    requires |rows| > 0
    ensures r in rows
    ensures forall j :: 0 <= j < |rows| ==> !LexLess(r.createdAt.text, rows[j].createdAt.text)
  {
    if |rows| == 1 then
      LexLessIrreflexive(rows[0].createdAt.text);
      rows[0]
    else
      var best := LatestRow(rows[1..]);
      LatestStep(rows[0], best, rows[1..]);
      LexLessIrreflexive(rows[0].createdAt.text);
      assert forall j :: 1 <= j < |rows| ==> rows[j] == rows[1..][j - 1];
      if LexLess(rows[0].createdAt.text, best.createdAt.text) then best else rows[0]
  }

  /** `ai_payload`: the payload of the row sorted first by `created_at` descending
      (string order), or none when the table is empty. */
  function LatestAiPayload(rows: seq<AiRow>): (p: Option<AiPayload>)
    ensures p.None? <==> |rows| == 0
    ensures p.Some? ==> exists i :: 0 <= i < |rows| && p.value == rows[i].payload
                          && forall j :: 0 <= j < |rows| ==> !LexLess(rows[i].createdAt.text, rows[j].createdAt.text)
  {
    if |rows| == 0 then None else Some(LatestRow(rows).payload)
  }

  /** A row created strictly later than every other row supplies the payload. */
  lemma StrictlyLatestWins(rows: seq<AiRow>, i: nat)
    requires i < |rows|
    requires forall j :: 0 <= j < |rows| && j != i ==> LexLess(rows[j].createdAt.text, rows[i].createdAt.text)
    ensures LatestAiPayload(rows) == Some(rows[i].payload)
  {
    var k :| 0 <= k < |rows| && rows[k] == LatestRow(rows);
  }

  // ---------------------------------------------------------------------------
  // Metric tiles
  // ---------------------------------------------------------------------------

  /** A value as an f-string shows it: Python's `None` is printed as "None". */
  datatype Shown<T> = NoneShown | Shown(value: T)

  /** What a tile shows besides its value: the change with its trend text, if shown,
      and whether the change is coloured as normal or inverted. */
  datatype Tile = Tile(delta: Option<(Shown<real>, Shown<string>)>, normalColour: bool)

  /** The `overview` of the latest AI payload, `{}` when there is none. */
  function OverviewOf(payload: Option<AiPayload>): map<string, Option<Card>> {
    if payload.Some? then payload.value.overview else map[]
  }

  /** How the trend text reads in the delta: '' when the key is missing, "None" when it
      is `null`. */
  function TrendShown(f: JsonField<string>): Shown<string> {
    match f
    case Absent => Shown("")
    case JsonNull => NoneShown
    case Present(s) => Shown(s)
  }

  /** `display_metric`, or `None` when it raises: a tile stored as `null` has no `get`.
      A missing tile or field reads as change 0, trend '' and good; a `null` field is
      not replaced by the default, so a `null` change is shown as "None%" and a `null`
      isGood, being falsy, inverts the colour. */
  function DisplayTile(payload: Option<AiPayload>, key: string): (t: Option<Tile>)
    ensures var o := OverviewOf(payload);
            t.None? <==> key in o && o[key].None?
    ensures key !in OverviewOf(payload) ==> t == Some(Tile(None, true))
    ensures var o := OverviewOf(payload);
            key in o && o[key].Some? ==>
              var c := o[key].value;
              && t.Some?
              && (t.value.delta.Some? <==>
                    c.changePct.JsonNull? || (c.changePct.Present? && c.changePct.value != 0.0))
              && (t.value.delta.Some? ==>
                    t.value.delta.value == (if c.changePct.Present? then Shown(c.changePct.value) else NoneShown,
                                            TrendShown(c.trendStr)))
              && (!t.value.normalColour <==> c.isGood == Present(false) || c.isGood.JsonNull?)
  {
    var overview := OverviewOf(payload);
    var data := if key in overview then overview[key] else Some(Card(Absent, Absent, Absent));
    match data
    case None => None
    case Some(c) =>
      var delta: Shown<real> := match c.changePct
                                case Absent => Shown(0.0)
                                case JsonNull => NoneShown
                                case Present(v) => Shown(v);
      var good := match c.isGood
                  case Absent => true
                  case JsonNull => false
                  case Present(b) => b;
      Some(Tile(if delta != Shown(0.0) then Some((delta, TrendShown(c.trendStr))) else None, good))
  }

  /** A `null` field is not a missing one: a `null` change shows "None% " with the trend
      and a `null` isGood inverts the colour, where missing ones show nothing in the
      normal colour. */
  lemma NullFieldsNotDefaults(key: string, trend: string)
    ensures var nulls := AiPayload(map[key := Some(Card(JsonNull, Present(trend), JsonNull))], None);
            DisplayTile(Some(nulls), key) == Some(Tile(Some((NoneShown, Shown(trend))), false))
    ensures var missing := AiPayload(map[key := Some(Card(Absent, Present(trend), Absent))], None);
            DisplayTile(Some(missing), key) == Some(Tile(None, true))
  {
  }

  /** For tiles written by the scheduler, the dashboard shows the change exactly when
      the percent change is not 0, and colours it as normal exactly when it is not
      negative. */
  lemma SchedulerTileShown(daily: Scheduler.DailyFigures, avg: Scheduler.Averages, winRate: real,
                           summary: Option<string>)
    ensures var p := Scheduler.Payload(Scheduler.Overview(daily, avg, winRate), summary);
            var pct := Scheduler.PercentChange(daily.newLeads, avg.avgLeads);
            var t := DisplayTile(Some(p), "newLeads");
            && t.Some?
            && (t.value.delta.Some? <==> pct != 0.0)
            && (t.value.delta.Some? ==> t.value.delta.value == (Shown(pct), Shown("vs 7-day avg")))
            && (t.value.normalColour <==> pct >= 0.0)
  {
  }
}
