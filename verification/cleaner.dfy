/** The whole cleaner run: per-site de-duplication of every site, the
    summary and grouped folds over the surviving findings in site order,
    the detailed report when one is requested, and the threshold check. */
module Cleaner {
  import opened Results
  import opened Sequences
  import opened Scoring
  import opened ZapReport
  import opened Dedup
  import opened Summary
  import opened Grouped

  datatype Error =
    | MissingAlertName     // an alert with instances has no "alert" field
    | ComparisonTypeError  // `>` between a set and an int

  datatype Verdict = Passed | Exceeded

  /** The fixed risk threshold, 10.0, in tenths of a point. */
  const Threshold: nat := 100

  /** The threshold check: fail only when the total is strictly above 10.0. */
  function Check(total: nat): Verdict
  {
    if total > Threshold then Exceeded else Passed
  }

  /** The surviving findings of one well-formed site. */
  function CleanSite(s: Site, mode: Mode): seq<Finding>
  {
    Survivors(SiteFindings(s), mode)
  }

  /** De-duplicate every site independently; any malformed site fails the
      whole run. */
  function CleanSites(sites: seq<Site>, mode: Mode): (r: Result<seq<seq<Finding>>, Error>)
    ensures r.Err? <==> exists k :: 0 <= k < |sites| && Malformed(sites[k])
    ensures r.Ok? ==> |r.value| == |sites|
    ensures r.Ok? ==> forall k :: 0 <= k < |sites| ==> r.value[k] == CleanSite(sites[k], mode)
  {
    if |sites| == 0 then Ok([])
    else if Malformed(sites[0]) then Err(MissingAlertName)
    else
      match CleanSites(sites[1..], mode)
      case Err(e) => Err(e)
      case Ok(rest) =>
        assert forall k :: 1 <= k < |sites| ==> sites[k] == sites[1..][k - 1];
        Ok([CleanSite(sites[0], mode)] + rest)
  }

  /** All findings of all sites, in site order. */
  function Concat(sites: seq<seq<Finding>>): seq<Finding>
  {
    if |sites| == 0 then [] else sites[0] + Concat(sites[1..])
  }

  /** Everything one run produces. `details` is present only when a detailed
      report is requested. */
  datatype Output = Output(
    deduped: seq<seq<Finding>>,
    summary: seq<Row>,
    details: Option<Details>,
    verdict: Verdict)

  /** One run of the cleaner over a parsed report. Without a detailed report
      the total checked against the threshold stays 0. */
  function Run(report: ScanReport, mode: Mode, wantDetails: bool): (r: Result<Output, Error>)
    ensures r.Err? <==> exists k :: 0 <= k < |SitesOf(report)| && Malformed(SitesOf(report)[k])
    ensures r.Ok? ==> wantDetails == r.value.details.Some?
    ensures r.Ok? && r.value.verdict == Exceeded ==> wantDetails
  {
    match CleanSites(SitesOf(report), mode)
    case Err(e) => Err(e)
    case Ok(deduped) =>
      var fs := Concat(deduped);
      var groups := GroupAll(fs);
      GroupAllCorrect(fs);
      assert UrisDistinct(groups);
      var details := if wantDetails then Some(Detail(groups)) else None;
      var total := if wantDetails then details.value.grandTotal else 0;
      Ok(Output(deduped, Summarize(fs), details, Check(total)))
  }

  // Properties of a run.

  /** The run fails exactly when some site holds an alert that has no name
      but has at least one instance; nothing else is an error. */
  lemma RunFailsIff(report: ScanReport, mode: Mode, wantDetails: bool)
    ensures Run(report, mode, wantDetails).Err? <==>
      exists k, a :: 0 <= k < |SitesOf(report)| && a in AlertsOf(SitesOf(report)[k])
                     && a.name.None? && |InstancesOf(a)| > 0
  {
    forall k | 0 <= k < |SitesOf(report)| {
      MalformedIff(SitesOf(report)[k]);
    }
  }

  /** Each site's output is that site's de-duplication alone: the set of
      seen keys starts empty at every site. */
  lemma RunSitesIndependent(report: ScanReport, mode: Mode, wantDetails: bool)
    requires Run(report, mode, wantDetails).Ok?
    ensures var out := Run(report, mode, wantDetails).value;
      |out.deduped| == |SitesOf(report)| &&
      forall k :: 0 <= k < |SitesOf(report)| ==>
        out.deduped[k] == Survivors(SiteFindings(SitesOf(report)[k]), mode)
  {
  }

  /** The summary of a run agrees with the surviving findings of all sites. */
  lemma RunSummaryCorrect(report: ScanReport, mode: Mode, wantDetails: bool)
    requires Run(report, mode, wantDetails).Ok?
    ensures var out := Run(report, mode, wantDetails).value;
      Summarises(Concat(out.deduped), out.summary)
  {
    SummarizeCorrect(Concat(Run(report, mode, wantDetails).value.deduped));
  }

  /** Block `k` of the detailed report describes the alert of summary row
      `k`, with the same risk and confidence, URIs sorted without repeats,
      each with the maximum score of the alert's findings there, and a
      total that is the sum of the listed scores and at most the row's
      total score. */
  lemma BlockMatchesRow(fs: seq<Finding>, k: nat)
    requires k < |GroupAll(fs)|
    ensures UrisDistinct(GroupAll(fs)) && k < |Summarize(fs)|
    ensures var b, row := Detail(GroupAll(fs)).blocks[k], Summarize(fs)[k];
      && b.alert == row.alert
      && b.risk == row.risk
      && b.confidence == row.confidence
      && b.total == Sum(Maxima(b.uris))
      && b.total <= row.totalScore
      && SortedByUri(b.uris)
      && (forall m :: 0 <= m < |b.uris| ==> b.uris[m].maxScore == MaxScore(fs, b.alert, b.uris[m].uri))
  {
    var groups, rows := GroupAll(fs), Summarize(fs);
    SummarizeCorrect(fs);
    GroupAllCorrect(fs);
    TotalsAreBounded(fs);
    assert |groups| == |rows| by {
      assert |GroupNames(groups)| == |RowNames(rows)|;
    }
    assert GroupNames(groups)[k] == RowNames(rows)[k];
    assert RowAgrees(fs, rows[k]) && GroupAgrees(fs, groups[k]);
    BlockCarriesMaxima(fs, groups[k], Detail(groups).blocks[k]);
  }

  /** A block lists the same URI entries as its group, so each carries the
      maximum score of the alert's findings at that URI. */
  lemma BlockCarriesMaxima(fs: seq<Finding>, g: Group, b: Block)
    requires UrisAgree(fs, g.alert, g.uris)
    requires b.alert == g.alert && multiset(b.uris) == multiset(g.uris)
    ensures forall m :: 0 <= m < |b.uris| ==> b.uris[m].maxScore == MaxScore(fs, b.alert, b.uris[m].uri)
  {
    forall m | 0 <= m < |b.uris|
      ensures b.uris[m].maxScore == MaxScore(fs, b.alert, b.uris[m].uri)
    {
      assert b.uris[m] in multiset(g.uris);
      var j :| 0 <= j < |g.uris| && g.uris[j] == b.uris[m];
    }
  }

  /** The detailed report of a run has one block per summary row, each
      agreeing with its row as `BlockMatchesRow` states, and its grand total
      is at most the sum of all surviving scores. */
  lemma RunDetailsCorrect(report: ScanReport, mode: Mode)
    requires Run(report, mode, true).Ok?
    ensures var out := Run(report, mode, true).value;
      var fs := Concat(out.deduped);
      && UrisDistinct(GroupAll(fs))
      && out.details.value == Detail(GroupAll(fs))
      && out.summary == Summarize(fs)
      && |out.details.value.blocks| == |out.summary|
      && out.details.value.grandTotal <= TotalScore(fs)
  {
    var fs := Concat(Run(report, mode, true).value.deduped);
    SummarizeCorrect(fs);
    GroupAllCorrect(fs);
    TotalsAreBounded(fs);
    assert |GroupNames(GroupAll(fs))| == |RowNames(Summarize(fs))|;
  }

  /** The check fails exactly when a detailed report was requested and its
      grand total is strictly above 10.0; without one the run passes. */
  lemma RunVerdict(report: ScanReport, mode: Mode, wantDetails: bool)
    requires Run(report, mode, wantDetails).Ok?
    ensures var out := Run(report, mode, wantDetails).value;
      out.verdict == Exceeded <==>
        wantDetails && out.details.value.grandTotal > Threshold
  {
  }

  /** A grand total of exactly 10.0 passes; 10.1 exceeds. */
  lemma ThresholdBoundary()
    ensures Check(100) == Passed
    ensures Check(101) == Exceeded
  {
  }

  // The threshold check as the source writes it.

  /** The dynamic value the source compares with the threshold: the integer
      0 when no detailed report is written, otherwise a set display holding
      the rounded grand total. */
  datatype PyValue = PyInt(n: int) | PySet(elems: set<int>)

  /** Python's `>` against an int: defined for an int, a TypeError for a set. */
  function PyGreater(v: PyValue, bound: int): Result<bool, Error>
  {
    match v
    case PyInt(n) => Ok(n > bound)
    case PySet(_) => Err(ComparisonTypeError)
  }

  function CheckAsWritten(wantDetails: bool, grandTotal: nat): Result<Verdict, Error>
  {
    var totalScore := if wantDetails then PySet({grandTotal}) else PyInt(0);
    match PyGreater(totalScore, Threshold)
    case Err(e) => Err(e)
    case Ok(exceeds) => Ok(if exceeds then Exceeded else Passed)
  }

  /** As written, every run that writes a detailed report ends in a
      TypeError at the threshold comparison, whatever its grand total; a
      run without one agrees with the corrected check. */
  lemma AsWrittenCheckFails(report: ScanReport, mode: Mode, wantDetails: bool)
    requires Run(report, mode, wantDetails).Ok?
    ensures wantDetails ==>
      CheckAsWritten(true, Run(report, mode, true).value.details.value.grandTotal).Err?
    ensures !wantDetails ==>
      CheckAsWritten(false, 0) == Ok(Run(report, mode, false).value.verdict)
  {
  }
}
