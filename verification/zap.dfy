/** The parsed ZAP report (sites -> alerts -> instances), the defaults the
    cleaner applies to absent fields, the flattening of a site into
    (alert, instance) occurrences, and the scored finding and identity key
    built from each occurrence. */
module ZapReport {
  import opened Results
  import opened Scoring

  /** One concrete occurrence of an alert. Every field may be absent. */
  datatype Instance = Instance(
    uri: Option<string>,
    httpMethod: Option<string>,
    param: Option<string>,
    evidence: Option<string>)

  /** An alert as it appears in a site, before de-duplication. */
  datatype Alert = Alert(
    name: Option<string>,
    riskcode: Option<string>,
    confidence: Option<string>,
    riskdesc: Option<string>,
    instances: Option<seq<Instance>>)

  datatype Site = Site(alerts: Option<seq<Alert>>)

  datatype ScanReport = ScanReport(sites: Option<seq<Site>>)

  // Field access with the cleaner's defaults: an absent list is empty, an
  // absent risk or confidence code is "0", any other absent text is "".

  function SitesOf(r: ScanReport): seq<Site> { r.sites.GetOr([]) }
  function AlertsOf(s: Site): seq<Alert> { s.alerts.GetOr([]) }
  function InstancesOf(a: Alert): seq<Instance> { a.instances.GetOr([]) }
  function RiskCodeOf(a: Alert): string { a.riskcode.GetOr("0") }
  function ConfidenceOf(a: Alert): string { a.confidence.GetOr("0") }
  function RiskDescOf(a: Alert): string { a.riskdesc.GetOr("") }
  function UriOf(i: Instance): string { i.uri.GetOr("") }
  function MethodOf(i: Instance): string { i.httpMethod.GetOr("") }
  function ParamOf(i: Instance): string { i.param.GetOr("") }
  function EvidenceOf(i: Instance): string { i.evidence.GetOr("") }

  /** An instance together with the alert it belongs to. */
  datatype Occurrence = Occurrence(alert: Alert, instance: Instance)

  /** The occurrences of alert `a` for the instances `insts`, in order. */
  function Expand(a: Alert, insts: seq<Instance>): (os: seq<Occurrence>)
    ensures forall o :: o in os <==> o.alert == a && o.instance in insts
    ensures |os| == |insts|
    ensures forall k :: 0 <= k < |insts| ==> os[k] == Occurrence(a, insts[k])
  {
    if |insts| == 0 then []
    else
      assert insts == [insts[0]] + insts[1..];
      [Occurrence(a, insts[0])] + Expand(a, insts[1..])
  }

  /** The nested alert/instance loops flattened into processing order. */
  function Occurrences(alerts: seq<Alert>): (os: seq<Occurrence>)
    ensures forall o :: o in os <==> o.alert in alerts && o.instance in InstancesOf(o.alert)
  {
    if |alerts| == 0 then []
    else
      assert alerts == [alerts[0]] + alerts[1..];
      Expand(alerts[0], InstancesOf(alerts[0])) + Occurrences(alerts[1..])
  }

  /** The alerts are processed one after the other: the occurrences of a
      concatenation of alert lists are those of each list, in turn. */
  lemma {:induction false} OccurrencesConcat(xs: seq<Alert>, ys: seq<Alert>)
    ensures Occurrences(xs + ys) == Occurrences(xs) + Occurrences(ys)
  {
    if |xs| == 0 {
      assert xs + ys == ys;
    } else {
      assert (xs + ys)[0] == xs[0];
      assert (xs + ys)[1..] == xs[1..] + ys;
      OccurrencesConcat(xs[1..], ys);
    }
  }

  /** A single alert contributes its instances, in order. */
  lemma OccurrencesSingle(a: Alert)
    ensures Occurrences([a]) == Expand(a, InstancesOf(a))
  {
  }

  function SiteOccurrences(s: Site): seq<Occurrence> { Occurrences(AlertsOf(s)) }

  /** The cleaner reads the alert name once per instance it processes, and a
      missing name aborts the run there. */
  predicate Malformed(s: Site)
  {
    exists o :: o in SiteOccurrences(s) && o.alert.name.None?
  }

  /** A site is malformed exactly when some alert in it has no name but has
      at least one instance; a nameless alert without instances is skipped. */
  lemma MalformedIff(s: Site)
    ensures Malformed(s) <==>
      exists a :: a in AlertsOf(s) && a.name.None? && |InstancesOf(a)| > 0
  {
    if a :| a in AlertsOf(s) && a.name.None? && |InstancesOf(a)| > 0 {
      assert Occurrence(a, InstancesOf(a)[0]) in SiteOccurrences(s);
    }
  }

  /** A surviving instance folded with its alert's metadata and its score
      (in tenths of a point). */
  datatype Finding = Finding(
    alert: string,
    riskdesc: string,
    confidence: string,
    uri: string,
    httpMethod: string,
    param: string,
    evidence: string,
    score: nat)

  /** The finding the cleaner records for an occurrence. The name default ""
      is never observed: a nameless occurrence makes the site malformed. */
  function FindingOf(o: Occurrence): Finding
  {
    var a, i := o.alert, o.instance;
    Finding(a.name.GetOr(""), RiskDescOf(a), ConfidenceOf(a),
            UriOf(i), MethodOf(i), ParamOf(i), EvidenceOf(i),
            Score(RiskCodeOf(a), ConfidenceOf(a)))
  }

  /** The candidate findings of a site, one per instance, in processing order. */
  function SiteFindings(s: Site): (fs: seq<Finding>)
    ensures |fs| == |SiteOccurrences(s)|
    ensures forall k :: 0 <= k < |fs| ==> fs[k] == FindingOf(SiteOccurrences(s)[k])
  {
    var os := SiteOccurrences(s);
    seq(|os|, k requires 0 <= k < |os| => FindingOf(os[k]))
  }

  /** The findings of a site whose alert list is a concatenation are those of
      each part, in turn: alerts are scanned in order. */
  lemma SiteFindingsConcat(xs: seq<Alert>, ys: seq<Alert>)
    ensures SiteFindings(Site(Some(xs + ys))) ==
      SiteFindings(Site(Some(xs))) + SiteFindings(Site(Some(ys)))
  {
    OccurrencesConcat(xs, ys);
  }

  /** The findings of a single named alert: one per instance, in instance
      order; each copies the alert's name, risk description and confidence
      and the instance's uri, method, param and evidence, and is scored from
      the alert's codes. */
  lemma AlertFindings(a: Alert)
    requires a.name.Some?
    ensures var fs, insts := SiteFindings(Site(Some([a]))), InstancesOf(a);
      && |fs| == |insts|
      && forall k :: 0 <= k < |insts| ==>
           && fs[k].alert == a.name.value
           && fs[k].riskdesc == RiskDescOf(a)
           && fs[k].confidence == ConfidenceOf(a)
           && fs[k].uri == UriOf(insts[k])
           && fs[k].httpMethod == MethodOf(insts[k])
           && fs[k].param == ParamOf(insts[k])
           && fs[k].evidence == EvidenceOf(insts[k])
           && fs[k].score == Score(RiskCodeOf(a), ConfidenceOf(a))
  {
    assert [a][1..] == [];
    assert SiteOccurrences(Site(Some([a]))) == Expand(a, InstancesOf(a)) + Occurrences([]);
  }

  /** Absent codes default to "0": an absent risk code weighs 1 (not 0),
      and an absent confidence code makes the score 0. */
  lemma MissingCodesDefault(o: Occurrence)
    ensures o.alert.riskcode.None? ==>
      FindingOf(o).score == Coefficient(ConfidenceOf(o.alert))
    ensures o.alert.confidence.None? ==>
      FindingOf(o).score == 0 && FindingOf(o).confidence == "0"
  {
  }

  /** Every finding's score is weight times coefficient and lies in [0.0, 5.0]. */
  lemma FindingScoreBounds(o: Occurrence)
    ensures FindingOf(o).score == Severity(RiskCodeOf(o.alert)) * Coefficient(ConfidenceOf(o.alert))
    ensures FindingOf(o).score <= 50
  {
  }

  /** Strict mode ignores the evidence; relaxed mode adds its digest. */
  datatype Mode = Strict | Relaxed

  /** Identity of an instance within a site. */
  datatype Key = Key(alert: string, uri: string, httpMethod: string, param: string, digest: string)

  /** The evidence digest: the empty string in strict mode; in relaxed mode
      the md5 hex digest, idealised here as the evidence text itself (an
      injective digest). */
  function Digest(evidence: string, mode: Mode): string
  {
    if mode == Relaxed then evidence else ""
  }

  /** The identity key of a finding. Its fields are the alert name, uri,
      method, param and evidence the finding copies from its instance, so
      this is the key the cleaner computes for that instance. */
  function KeyOf(f: Finding, mode: Mode): Key
  {
    Key(f.alert, f.uri, f.httpMethod, f.param, Digest(f.evidence, mode))
  }

  /** Two findings collide in strict mode exactly when name, uri, method and
      param agree; in relaxed mode the evidence must agree as well. */
  lemma KeyCollision(f: Finding, g: Finding)
    ensures KeyOf(f, Strict) == KeyOf(g, Strict) <==>
      f.alert == g.alert && f.uri == g.uri && f.httpMethod == g.httpMethod && f.param == g.param
    ensures KeyOf(f, Relaxed) == KeyOf(g, Relaxed) <==>
      KeyOf(f, Strict) == KeyOf(g, Strict) && f.evidence == g.evidence
  {
  }
}
