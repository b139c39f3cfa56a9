/** Behaviours stated over whole sites and reports: how evidence is treated in each mode, why sites are
    independent scopes, how nameless alerts are treated, and how the
    detailed total differs from the summary total. */
module Scenarios {
  import opened Results
  import opened Sequences
  import opened Scoring
  import opened ZapReport
  import opened Dedup
  import opened Summary
  import opened Grouped
  import opened Cleaner

  /** A site holding one alert whose two instances differ at most in their
      evidence. */
  function TwinSite(a: Alert, i: Instance, e: string): Site
  {
    Site(Some([a.(instances := Some([i, i.(evidence := Some(e))]))]))
  }

  lemma TwinFindings(a: Alert, i: Instance, e: string)
    ensures var a' := a.(instances := Some([i, i.(evidence := Some(e))]));
      SiteFindings(TwinSite(a, i, e)) ==
        [FindingOf(Occurrence(a', i)), FindingOf(Occurrence(a', i.(evidence := Some(e))))]
  {
    var j := i.(evidence := Some(e));
    var a' := a.(instances := Some([i, j]));
    assert [i, j][1..] == [j];
    assert Expand(a', [j]) == [Occurrence(a', j)];
    assert Expand(a', [i, j]) == [Occurrence(a', i), Occurrence(a', j)];
    assert [a'][1..] == [];
    assert Occurrences([a']) == Expand(a', [i, j]) + Occurrences([]);
    assert SiteOccurrences(TwinSite(a, i, e)) == [Occurrence(a', i), Occurrence(a', j)];
  }

  lemma SurvivorsOfTwo(f: Finding, g: Finding, mode: Mode)
    ensures Survivors([f, g], mode) ==
      if KeyOf(f, mode) == KeyOf(g, mode) then [f] else [f, g]
  {
    assert [f, g][..1] == [f];
    assert [f][..0] == [];
  }

  /** In strict mode two instances that differ only in evidence collapse
      to the first, which keeps its own evidence. */
  lemma StrictCollapsesEvidence(a: Alert, i: Instance, e: string)
    requires a.name.Some?
    ensures var a' := a.(instances := Some([i, i.(evidence := Some(e))]));
      CleanSite(TwinSite(a, i, e), Strict) == [FindingOf(Occurrence(a', i))]
    ensures CleanSite(TwinSite(a, i, e), Strict)[0].evidence == EvidenceOf(i)
  {
    var a' := a.(instances := Some([i, i.(evidence := Some(e))]));
    TwinFindings(a, i, e);
    SurvivorsOfTwo(FindingOf(Occurrence(a', i)), FindingOf(Occurrence(a', i.(evidence := Some(e)))), Strict);
  }

  /** In relaxed mode different evidence keeps both instances. */
  lemma RelaxedKeepsDifferentEvidence(a: Alert, i: Instance, e: string)
    requires a.name.Some? && e != EvidenceOf(i)
    ensures var a' := a.(instances := Some([i, i.(evidence := Some(e))]));
      CleanSite(TwinSite(a, i, e), Relaxed) ==
        [FindingOf(Occurrence(a', i)), FindingOf(Occurrence(a', i.(evidence := Some(e))))]
  {
    var a' := a.(instances := Some([i, i.(evidence := Some(e))]));
    TwinFindings(a, i, e);
    SurvivorsOfTwo(FindingOf(Occurrence(a', i)), FindingOf(Occurrence(a', i.(evidence := Some(e)))), Relaxed);
  }

  /** The first instance of a site always survives. */
  lemma FirstInstanceSurvives(fs: seq<Finding>, mode: Mode)
    requires |fs| > 0
    ensures |Survivors(fs, mode)| > 0 && Survivors(fs, mode)[0] == fs[0]
  {
    SurvivorsAreFirsts(fs, mode);
    SurvivorsInOrderHead(fs, mode);
  }

  lemma {:induction false} SurvivorsInOrderHead(fs: seq<Finding>, mode: Mode)
    requires |fs| > 0
    ensures |Survivors(fs, mode)| > 0 && Survivors(fs, mode)[0] == fs[0]
  {
    if |fs| == 1 {
      assert fs[..0] == [];
    } else {
      var p := fs[..|fs| - 1];
      SurvivorsInOrderHead(p, mode);
      SurvivorsSnoc(p, fs[|fs| - 1], mode);
      assert fs == p + [fs[|fs| - 1]];
    }
  }

  /** Two well-formed sites are cleaned one by one. */
  lemma CleanTwoSites(s1: Site, s2: Site, mode: Mode)
    requires !Malformed(s1) && !Malformed(s2)
    ensures CleanSites([s1, s2], mode) == Ok([CleanSite(s1, mode), CleanSite(s2, mode)])
  {
    var sites := [s1, s2];
    assert sites[0] == s1 && sites[1] == s2;
    var r := CleanSites(sites, mode);
    assert r.Ok?;
    assert r.value[0] == CleanSite(s1, mode);
    assert r.value[1] == CleanSite(s2, mode);
    assert r.value == [CleanSite(s1, mode), CleanSite(s2, mode)];
  }

  /** Sites are independent scopes: a site repeated verbatim is cleaned the
      same way both times, so identical keys in different sites all survive
      (in particular the first instance of each copy). */
  lemma RepeatedSiteKeepsBoth(s: Site, mode: Mode)
    requires !Malformed(s)
    ensures CleanSites([s, s], mode) == Ok([CleanSite(s, mode), CleanSite(s, mode)])
    ensures |SiteFindings(s)| > 0 ==>
      |CleanSite(s, mode)| > 0 && CleanSite(s, mode)[0] == SiteFindings(s)[0]
  {
    CleanTwoSites(s, s, mode);
    if |SiteFindings(s)| > 0 {
      FirstInstanceSurvives(SiteFindings(s), mode);
    }
  }

  /** A nameless alert with an instance makes the run fail. */
  lemma NamelessAlertFails(a: Alert, mode: Mode, wantDetails: bool)
    requires a.name.None? && |InstancesOf(a)| > 0
    ensures Run(ScanReport(Some([Site(Some([a]))])), mode, wantDetails) == Err(MissingAlertName)
  {
    var report := ScanReport(Some([Site(Some([a]))]));
    RunFailsIff(report, mode, wantDetails);
    assert a in AlertsOf(SitesOf(report)[0]);
  }

  /** A nameless alert without instances is skipped: the site cleans as if
      it were absent. */
  lemma NamelessEmptyAlertSkipped(a: Alert, alerts: seq<Alert>)
    requires a.name.None? && |InstancesOf(a)| == 0
    ensures SiteFindings(Site(Some([a] + alerts))) == SiteFindings(Site(Some(alerts)))
    ensures Malformed(Site(Some([a] + alerts))) == Malformed(Site(Some(alerts)))
  {
    assert ([a] + alerts)[1..] == alerts;
    assert SiteOccurrences(Site(Some([a] + alerts))) == SiteOccurrences(Site(Some(alerts)));
  }

  /** Two sites report the same alert at the same URI, with scores 2.0
      (medium risk, high confidence) and 3.0 (high risk, high confidence). */
  function TwoScoreReport(): ScanReport
  {
    var inst := Instance(Some("/login"), Some("GET"), None, None);
    var medium := Alert(Some("XSS"), Some("1"), Some("3"), Some("Medium"), Some([inst]));
    var high := Alert(Some("XSS"), Some("2"), Some("3"), Some("High"), Some([inst]));
    ScanReport(Some([Site(Some([medium])), Site(Some([high]))]))
  }

  /** The findings of a site with one alert of one instance. */
  lemma OneInstanceSite(a: Alert, i: Instance)
    requires InstancesOf(a) == [i]
    ensures SiteFindings(Site(Some([a]))) == [FindingOf(Occurrence(a, i))]
  {
    assert [i][1..] == [];
    assert Expand(a, [i]) == [Occurrence(a, i)];
    assert [a][1..] == [];
    assert SiteOccurrences(Site(Some([a]))) == Expand(a, [i]) + Occurrences([]);
    assert |SiteFindings(Site(Some([a])))| == 1;
  }

  lemma SurvivorsOfOne(f: Finding, mode: Mode)
    ensures Survivors([f], mode) == [f]
  {
    assert [f][..0] == [];
  }

  /** A site with one named alert of one instance is well-formed and cleans
      to that instance's finding. */
  lemma CleanOneInstanceSite(a: Alert, i: Instance, mode: Mode)
    requires a.name.Some? && InstancesOf(a) == [i]
    ensures !Malformed(Site(Some([a])))
    ensures CleanSite(Site(Some([a])), mode) == [FindingOf(Occurrence(a, i))]
  {
    MalformedIff(Site(Some([a])));
    OneInstanceSite(a, i);
    SurvivorsOfOne(FindingOf(Occurrence(a, i)), mode);
  }

  lemma TwoScoreSites(mode: Mode)
    ensures CleanSites(SitesOf(TwoScoreReport()), mode) ==
      Ok([[Finding("XSS", "Medium", "3", "/login", "GET", "", "", 20)],
          [Finding("XSS", "High", "3", "/login", "GET", "", "", 30)]])
  {
    var inst := Instance(Some("/login"), Some("GET"), None, None);
    var medium := Alert(Some("XSS"), Some("1"), Some("3"), Some("Medium"), Some([inst]));
    var high := Alert(Some("XSS"), Some("2"), Some("3"), Some("High"), Some([inst]));
    assert FindingOf(Occurrence(medium, inst)) == Finding("XSS", "Medium", "3", "/login", "GET", "", "", 20);
    assert FindingOf(Occurrence(high, inst)) == Finding("XSS", "High", "3", "/login", "GET", "", "", 30);
    CleanOneInstanceSite(medium, inst, mode);
    CleanOneInstanceSite(high, inst, mode);
    CleanTwoSites(Site(Some([medium])), Site(Some([high])), mode);
  }

  lemma TwoScoreFolds(f1: Finding, f2: Finding)
    requires f1 == Finding("XSS", "Medium", "3", "/login", "GET", "", "", 20)
    requires f2 == Finding("XSS", "High", "3", "/login", "GET", "", "", 30)
    ensures Summarize([f1, f2]) == [Row("XSS", 2, "High", "3", 50)]
    ensures GroupAll([f1, f2]) == [Group("XSS", "High", "3", [UriScore("/login", 30)])]
  {
    assert [f1, f2][..1] == [f1];
    assert [f1][..0] == [];
    var row := Row("XSS", 1, "Medium", "3", 20);
    assert Summarize([f1]) == [row];
    assert RowNames([row]) == ["XSS"];
    assert IndexOf(["XSS"], "XSS") == 0;
    var us := [UriScore("/login", 20)];
    var g := Group("XSS", "Medium", "3", us);
    assert GroupAll([f1]) == [g];
    assert GroupNames([g]) == ["XSS"];
    assert UriNames(us) == ["/login"];
    assert IndexOf(["/login"], "/login") == 0;
    var us' := [UriScore("/login", 30)];
    assert AddUri(us, f2.uri, f2.score) == us';
    assert AddGroup([g], f2) == [g][0 := Group("XSS", "High", "3", us')];
    assert [g][0 := Group("XSS", "High", "3", us')] == [Group("XSS", "High", "3", us')];
  }

  lemma TwoScoreDetail()
    ensures var gs := [Group("XSS", "High", "3", [UriScore("/login", 30)])];
      UrisDistinct(gs) &&
      Detail(gs) == Details([Block("XSS", "High", "3", 30, [UriScore("/login", 30)])], 30)
  {
    var us := [UriScore("/login", 30)];
    var gs := [Group("XSS", "High", "3", us)];
    SingletonTotal(us[0]);
    assert Totals(gs) == [30];
    assert [30][1..] == [];
    assert SortByUri(us) == us;
  }

  lemma ConcatTwo(a: seq<Finding>, b: seq<Finding>)
    ensures Concat([a, b]) == a + b
  {
    assert [a, b][1..] == [b];
    assert [b][1..] == [];
    assert Concat([b]) == b + Concat([]);
    assert b + [] == b;
  }

  /** What a run with details yields once its sites are cleaned. */
  lemma RunWithDetails(report: ScanReport, mode: Mode, deduped: seq<seq<Finding>>)
    requires CleanSites(SitesOf(report), mode) == Ok(deduped)
    ensures var fs := Concat(deduped);
      && UrisDistinct(GroupAll(fs))
      && Run(report, mode, true) ==
           Ok(Output(deduped, Summarize(fs), Some(Detail(GroupAll(fs))),
                     Check(Detail(GroupAll(fs)).grandTotal)))
  {
    GroupAllCorrect(Concat(deduped));
  }

  lemma TwoScoreRun(mode: Mode, f1: Finding, f2: Finding)
    requires f1 == Finding("XSS", "Medium", "3", "/login", "GET", "", "", 20)
    requires f2 == Finding("XSS", "High", "3", "/login", "GET", "", "", 30)
    ensures && UrisDistinct(GroupAll([f1, f2]))
            && Run(TwoScoreReport(), mode, true) ==
                 Ok(Output([[f1], [f2]], Summarize([f1, f2]), Some(Detail(GroupAll([f1, f2]))),
                           Check(Detail(GroupAll([f1, f2])).grandTotal)))
  {
    TwoScoreSites(mode);
    ConcatTwo([f1], [f2]);
    assert [f1] + [f2] == [f1, f2];
    RunWithDetails(TwoScoreReport(), mode, [[f1], [f2]]);
  }

  /** The detailed total keeps the per-URI maximum (3.0) while the summary
      total adds both scores (5.0); the later finding's risk wins. */
  lemma MaxVersusSum(mode: Mode)
    ensures var r := Run(TwoScoreReport(), mode, true);
      && r.Ok?
      && r.value.summary == [Row("XSS", 2, "High", "3", 50)]
      && r.value.details == Some(Details([Block("XSS", "High", "3", 30, [UriScore("/login", 30)])], 30))
      && r.value.verdict == Passed
  {
    var f1 := Finding("XSS", "Medium", "3", "/login", "GET", "", "", 20);
    var f2 := Finding("XSS", "High", "3", "/login", "GET", "", "", 30);
    TwoScoreRun(mode, f1, f2);
    TwoScoreFolds(f1, f2);
    TwoScoreDetail();
  }
}
