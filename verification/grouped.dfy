/** The grouped view behind the detailed report: per alert name, the
    last-seen risk description and confidence and, per URI, the MAXIMUM
    score among the findings of that alert at that URI. The per-alert total
    is the sum of those maxima and the grand total the sum of the per-alert
    totals. */
module Grouped {
  import opened ZapReport
  import opened Sequences
  import opened Summary
  import opened LexOrder

  datatype UriScore = UriScore(uri: string, maxScore: nat)

  datatype Group = Group(alert: string, risk: string, confidence: string, uris: seq<UriScore>)

  function UriNames(us: seq<UriScore>): (ns: seq<string>)
    ensures |ns| == |us|
    ensures forall m :: 0 <= m < |us| ==> ns[m] == us[m].uri
  {
    seq(|us|, m requires 0 <= m < |us| => us[m].uri)
  }

  function GroupNames(gs: seq<Group>): (ns: seq<string>)
    ensures |ns| == |gs|
    ensures forall k :: 0 <= k < |gs| ==> ns[k] == gs[k].alert
  {
    seq(|gs|, k requires 0 <= k < |gs| => gs[k].alert)
  }

  /** Record a score at a URI: a new URI takes it; a known URI keeps the
      larger of its stored score and this one. */
  function AddUri(us: seq<UriScore>, uri: string, score: nat): seq<UriScore>
  {
    var k := IndexOf(UriNames(us), uri);
    if k < |us| then
      if score > us[k].maxScore then us[k := UriScore(uri, score)] else us
    else
      us + [UriScore(uri, score)]
  }

  /** Fold one surviving finding into the grouped view. */
  function AddGroup(gs: seq<Group>, f: Finding): seq<Group>
  {
    var k := IndexOf(GroupNames(gs), f.alert);
    if k < |gs| then
      gs[k := Group(f.alert, f.riskdesc, f.confidence, AddUri(gs[k].uris, f.uri, f.score))]
    else
      gs + [Group(f.alert, f.riskdesc, f.confidence, [UriScore(f.uri, f.score)])]
  }

  /** The grouped view of the surviving findings, folded in order. */
  function GroupAll(fs: seq<Finding>): seq<Group>
  {
    if |fs| == 0 then [] else AddGroup(GroupAll(fs[..|fs| - 1]), fs[|fs| - 1])
  }

  function Maxima(us: seq<UriScore>): (ms: seq<nat>)
    ensures |ms| == |us|
    ensures forall m :: 0 <= m < |us| ==> ms[m] == us[m].maxScore
  {
    seq(|us|, m requires 0 <= m < |us| => us[m].maxScore)
  }

  /** Per-alert total of the detailed report: the sum of the per-URI maxima. */
  function AlertTotal(g: Group): nat
  {
    Sum(Maxima(g.uris))
  }

  function Totals(gs: seq<Group>): (ts: seq<nat>)
    ensures |ts| == |gs|
    ensures forall k :: 0 <= k < |gs| ==> ts[k] == AlertTotal(gs[k])
  {
    seq(|gs|, k requires 0 <= k < |gs| => AlertTotal(gs[k]))
  }

  /** Grand total of the detailed report: the sum of the per-alert totals. */
  function GrandTotal(gs: seq<Group>): nat
  {
    Sum(Totals(gs))
  }

  // Reference definitions the grouped view is checked against.

  /** URIs of the findings named `n`, in order. */
  function UrisOf(fs: seq<Finding>, n: string): seq<string>
  {
    if |fs| == 0 then []
    else UrisOf(fs[..|fs| - 1], n) + (if fs[|fs| - 1].alert == n then [fs[|fs| - 1].uri] else [])
  }

  /** The largest score of a finding named `n` at URI `u`, or -1 when there
      is no such finding. */
  function MaxScore(fs: seq<Finding>, n: string, u: string): (s: int)
    ensures s >= -1
  {
    if |fs| == 0 then -1
    else
      var s := MaxScore(fs[..|fs| - 1], n, u);
      var x := fs[|fs| - 1];
      if x.alert == n && x.uri == u && x.score > s then x.score else s
  }

  ghost predicate UrisAgree(fs: seq<Finding>, n: string, us: seq<UriScore>)
  {
    && UriNames(us) == FirstSeen(UrisOf(fs, n))
    && forall m :: 0 <= m < |us| ==> us[m].maxScore == MaxScore(fs, n, us[m].uri)
  }

  ghost predicate GroupAgrees(fs: seq<Finding>, g: Group)
  {
    var j := LastIndex(fs, g.alert);
    && j >= 0
    && g.risk == fs[j].riskdesc
    && g.confidence == fs[j].confidence
    && UrisAgree(fs, g.alert, g.uris)
  }

  ghost predicate GroupsAgree(fs: seq<Finding>, gs: seq<Group>)
  {
    && GroupNames(gs) == FirstSeen(Names(fs))
    && forall k :: 0 <= k < |gs| ==> GroupAgrees(fs, gs[k])
  }

  /** `MaxScore` is the maximum: it bounds every score of the alert at the
      URI, some finding attains it, and it is -1 exactly when the alert was
      never seen at the URI. */
  lemma {:induction false} MaxScoreIsMaximum(fs: seq<Finding>, n: string, u: string)
    ensures forall i :: 0 <= i < |fs| && fs[i].alert == n && fs[i].uri == u ==> fs[i].score <= MaxScore(fs, n, u)
    ensures MaxScore(fs, n, u) >= 0 ==>
      exists i :: 0 <= i < |fs| && fs[i].alert == n && fs[i].uri == u && fs[i].score == MaxScore(fs, n, u)
    ensures MaxScore(fs, n, u) == -1 <==> u !in UrisOf(fs, n)
  {
    if |fs| > 0 {
      var p, x := fs[..|fs| - 1], fs[|fs| - 1];
      MaxScoreIsMaximum(p, n, u);
      assert UrisOf(fs, n) == UrisOf(p, n) + (if x.alert == n then [x.uri] else []);
      assert forall i :: 0 <= i < |p| ==> fs[i] == p[i];
      if MaxScore(fs, n, u) >= 0 && MaxScore(fs, n, u) == MaxScore(p, n, u) {
        var i :| 0 <= i < |p| && p[i].alert == n && p[i].uri == u && p[i].score == MaxScore(p, n, u);
        assert fs[i] == p[i];
      }
    }
  }

  lemma {:induction false} MaxScoreAbsent(fs: seq<Finding>, n: string, u: string)
    requires u !in UrisOf(fs, n)
    ensures MaxScore(fs, n, u) == -1
  {
    if |fs| > 0 {
      MaxScoreAbsent(fs[..|fs| - 1], n, u);
    }
  }

  lemma {:induction false} UrisOfAbsent(fs: seq<Finding>, n: string)
    requires n !in Names(fs)
    ensures UrisOf(fs, n) == []
  {
    if |fs| > 0 {
      var p := fs[..|fs| - 1];
      assert forall k :: 0 <= k < |p| ==> Names(p)[k] == Names(fs)[k];
      UrisOfAbsent(p, n);
    }
  }

  lemma UrisOfSnoc(fs: seq<Finding>, n: string)
    requires |fs| > 0 && fs[|fs| - 1].alert == n
    ensures FirstSeen(UrisOf(fs, n)) == FirstSeen(UrisOf(fs[..|fs| - 1], n)) +
      (if fs[|fs| - 1].uri in UrisOf(fs[..|fs| - 1], n) then [] else [fs[|fs| - 1].uri])
  {
    var us := UrisOf(fs, n);
    assert us[..|us| - 1] == UrisOf(fs[..|fs| - 1], n);
  }

  /** Recording a finding's score at its URI keeps its alert's URI table in
      agreement with the findings. */
  lemma AddUriStep(fs: seq<Finding>, us: seq<UriScore>)
    requires |fs| > 0
    requires UrisAgree(fs[..|fs| - 1], fs[|fs| - 1].alert, us)
    ensures UrisAgree(fs, fs[|fs| - 1].alert, AddUri(us, fs[|fs| - 1].uri, fs[|fs| - 1].score))
  {
    var p, x := fs[..|fs| - 1], fs[|fs| - 1];
    var n := x.alert;
    UrisOfSnoc(fs, n);
    FirstSeenMember(UrisOf(p, n), x.uri);
    IndexOfMember(UriNames(us), x.uri);
    var k := IndexOf(UriNames(us), x.uri);
    var us' := AddUri(us, x.uri, x.score);
    if k < |us| {
      assert UriNames(us') == UriNames(us);
      forall m | 0 <= m < |us'| ensures us'[m].maxScore == MaxScore(fs, n, us'[m].uri) {
        if m != k {
          assert UriNames(us)[m] != UriNames(us)[k];
        }
      }
    } else {
      MaxScoreAbsent(p, n, x.uri);
      assert UriNames(us') == UriNames(us) + [x.uri];
      forall m | 0 <= m < |us'| ensures us'[m].maxScore == MaxScore(fs, n, us'[m].uri) {
        if m < |us| {
          assert UriNames(us)[m] in FirstSeen(UrisOf(p, n));
        }
      }
    }
  }

  /** A group of another alert is unaffected by a new finding. */
  lemma OtherGroupUnchanged(fs: seq<Finding>, g: Group)
    requires |fs| > 0
    requires GroupAgrees(fs[..|fs| - 1], g)
    requires g.alert != fs[|fs| - 1].alert
    ensures GroupAgrees(fs, g)
  {
    var p := fs[..|fs| - 1];
    assert fs[LastIndex(p, g.alert)] == p[LastIndex(p, g.alert)];
    assert UrisOf(fs, g.alert) == UrisOf(p, g.alert);
    forall u ensures MaxScore(fs, g.alert, u) == MaxScore(p, g.alert, u) { }
  }

  /** The group of the new finding's alert takes its risk and confidence
      and records its score at its URI. */
  lemma OwnGroupUpdated(fs: seq<Finding>, g: Group)
    requires |fs| > 0
    requires GroupAgrees(fs[..|fs| - 1], g)
    requires g.alert == fs[|fs| - 1].alert
    ensures var x := fs[|fs| - 1];
      GroupAgrees(fs, Group(x.alert, x.riskdesc, x.confidence, AddUri(g.uris, x.uri, x.score)))
  {
    AddUriStep(fs, g.uris);
  }

  /** A first finding of its alert starts a fresh group. */
  lemma NewGroupStarted(fs: seq<Finding>)
    requires |fs| > 0
    requires fs[|fs| - 1].alert !in Names(fs[..|fs| - 1])
    ensures var x := fs[|fs| - 1];
      GroupAgrees(fs, Group(x.alert, x.riskdesc, x.confidence, [UriScore(x.uri, x.score)]))
  {
    var p, x := fs[..|fs| - 1], fs[|fs| - 1];
    UrisOfAbsent(p, x.alert);
    MaxScoreAbsent(p, x.alert, x.uri);
    assert UrisOf(fs, x.alert) == [x.uri];
    assert FirstSeen([x.uri]) == [x.uri];
  }

  lemma GroupNamesSnoc(gs: seq<Group>, g: Group)
    ensures GroupNames(gs + [g]) == GroupNames(gs) + [g.alert]
  {
  }

  lemma GroupNamesUpdate(gs: seq<Group>, k: nat, g: Group)
    requires k < |gs| && g.alert == gs[k].alert
    ensures GroupNames(gs[k := g]) == GroupNames(gs)
  {
  }

  lemma UpdateGroupStep(fs: seq<Finding>, gs: seq<Group>, k: nat)
    requires |fs| > 0
    requires GroupsAgree(fs[..|fs| - 1], gs)
    requires k < |gs| && gs[k].alert == fs[|fs| - 1].alert
    requires fs[|fs| - 1].alert in Names(fs[..|fs| - 1])
    ensures var x := fs[|fs| - 1];
      GroupsAgree(fs, gs[k := Group(x.alert, x.riskdesc, x.confidence, AddUri(gs[k].uris, x.uri, x.score))])
  {
    var p, x := fs[..|fs| - 1], fs[|fs| - 1];
    var g := Group(x.alert, x.riskdesc, x.confidence, AddUri(gs[k].uris, x.uri, x.score));
    var gs' := gs[k := g];
    NamesSnoc(fs);
    assert FirstSeen(Names(fs)) == FirstSeen(Names(p));
    GroupNamesUpdate(gs, k, g);
    forall m | 0 <= m < |gs'| ensures GroupAgrees(fs, gs'[m]) {
      assert GroupAgrees(p, gs[m]);
      if m != k {
        assert GroupNames(gs)[m] != GroupNames(gs)[k];
        OtherGroupUnchanged(fs, gs[m]);
      } else {
        OwnGroupUpdated(fs, gs[k]);
      }
    }
  }

  lemma AppendGroupStep(fs: seq<Finding>, gs: seq<Group>)
    requires |fs| > 0
    requires GroupsAgree(fs[..|fs| - 1], gs)
    requires fs[|fs| - 1].alert !in Names(fs[..|fs| - 1])
    ensures var x := fs[|fs| - 1];
      GroupsAgree(fs, gs + [Group(x.alert, x.riskdesc, x.confidence, [UriScore(x.uri, x.score)])])
  {
    var x := fs[|fs| - 1];
    var g := Group(x.alert, x.riskdesc, x.confidence, [UriScore(x.uri, x.score)]);
    var gs' := gs + [g];
    NamesSnoc(fs);
    GroupNamesSnoc(gs, g);
    forall m | 0 <= m < |gs'| ensures GroupAgrees(fs, gs'[m]) {
      if m < |gs| {
        assert GroupNames(gs)[m] in FirstSeen(Names(fs[..|fs| - 1]));
        OtherGroupUnchanged(fs, gs[m]);
      } else {
        NewGroupStarted(fs);
      }
    }
  }

  lemma AddGroupStep(fs: seq<Finding>, gs: seq<Group>)
    requires |fs| > 0
    requires GroupsAgree(fs[..|fs| - 1], gs)
    ensures GroupsAgree(fs, AddGroup(gs, fs[|fs| - 1]))
  {
    var p, x := fs[..|fs| - 1], fs[|fs| - 1];
    var k := IndexOf(GroupNames(gs), x.alert);
    FirstSeenMember(Names(p), x.alert);
    IndexOfMember(GroupNames(gs), x.alert);
    if k < |gs| {
      UpdateGroupStep(fs, gs, k);
    } else {
      AppendGroupStep(fs, gs);
    }
  }

  /** The grouped view has one group per alert name in first-seen order
      (the summary's order); each group carries the last finding's risk and
      confidence and lists every URI of the alert once, in first-seen
      order, with the maximum score found there. */
  lemma {:induction false} GroupAllCorrect(fs: seq<Finding>)
    ensures GroupsAgree(fs, GroupAll(fs))
  {
    if |fs| > 0 {
      GroupAllCorrect(fs[..|fs| - 1]);
      AddGroupStep(fs, GroupAll(fs[..|fs| - 1]));
    }
  }

  // Totals: sum of maxima versus sum of scores.

  /** Sum of the scores of all the findings. */
  function TotalScore(fs: seq<Finding>): nat
  {
    if |fs| == 0 then 0 else TotalScore(fs[..|fs| - 1]) + fs[|fs| - 1].score
  }

  /** Recording a score at a URI raises the URI table's total by at most
      that score, and never lowers it. */
  lemma AddUriTotal(us: seq<UriScore>, u: string, s: nat)
    ensures Sum(Maxima(us)) <= Sum(Maxima(AddUri(us, u, s))) <= Sum(Maxima(us)) + s
  {
    var k := IndexOf(UriNames(us), u);
    if k < |us| {
      if s > us[k].maxScore {
        assert Maxima(AddUri(us, u, s)) == Maxima(us)[k := s];
        SumUpdate(Maxima(us), k, s);
      }
    } else {
      assert Maxima(AddUri(us, u, s)) == Maxima(us) + [s];
      SumAppend(Maxima(us), s);
    }
  }

  ghost predicate TotalsBounded(fs: seq<Finding>, gs: seq<Group>)
  {
    forall k :: 0 <= k < |gs| ==> AlertTotal(gs[k]) <= ScoreSum(fs, gs[k].alert)
  }

  lemma SingletonTotal(v: UriScore)
    ensures Sum(Maxima([v])) == v.maxScore
  {
    assert Maxima([v]) == [v.maxScore];
    assert [v.maxScore][1..] == [];
  }

  lemma TotalsUpdate(gs: seq<Group>, k: nat, g: Group)
    requires k < |gs|
    ensures GrandTotal(gs[k := g]) == GrandTotal(gs) - AlertTotal(gs[k]) + AlertTotal(g)
  {
    assert Totals(gs[k := g]) == Totals(gs)[k := AlertTotal(g)];
    SumUpdate(Totals(gs), k, AlertTotal(g));
  }

  lemma TotalsAppend(gs: seq<Group>, g: Group)
    ensures GrandTotal(gs + [g]) == GrandTotal(gs) + AlertTotal(g)
  {
    assert Totals(gs + [g]) == Totals(gs) + [AlertTotal(g)];
    SumAppend(Totals(gs), AlertTotal(g));
  }

  lemma UpdateGroupBounded(fs: seq<Finding>, gs: seq<Group>, k: nat)
    requires |fs| > 0
    requires Distinct(GroupNames(gs))
    requires TotalsBounded(fs[..|fs| - 1], gs)
    requires k < |gs| && gs[k].alert == fs[|fs| - 1].alert
    ensures var x := fs[|fs| - 1];
      var g := Group(x.alert, x.riskdesc, x.confidence, AddUri(gs[k].uris, x.uri, x.score));
      TotalsBounded(fs, gs[k := g]) && GrandTotal(gs[k := g]) <= GrandTotal(gs) + x.score
  {
    var x := fs[|fs| - 1];
    var g := Group(x.alert, x.riskdesc, x.confidence, AddUri(gs[k].uris, x.uri, x.score));
    var gs' := gs[k := g];
    AddUriTotal(gs[k].uris, x.uri, x.score);
    forall m | 0 <= m < |gs'| ensures AlertTotal(gs'[m]) <= ScoreSum(fs, gs'[m].alert) {
      if m != k {
        assert GroupNames(gs)[m] != GroupNames(gs)[k];
      }
    }
    TotalsUpdate(gs, k, g);
  }

  lemma AppendGroupBounded(fs: seq<Finding>, gs: seq<Group>)
    requires |fs| > 0
    requires TotalsBounded(fs[..|fs| - 1], gs)
    requires fs[|fs| - 1].alert !in GroupNames(gs)
    ensures var x := fs[|fs| - 1];
      var g := Group(x.alert, x.riskdesc, x.confidence, [UriScore(x.uri, x.score)]);
      TotalsBounded(fs, gs + [g]) && GrandTotal(gs + [g]) <= GrandTotal(gs) + x.score
  {
    var x := fs[|fs| - 1];
    var g := Group(x.alert, x.riskdesc, x.confidence, [UriScore(x.uri, x.score)]);
    var gs' := gs + [g];
    SingletonTotal(g.uris[0]);
    forall m | 0 <= m < |gs'| ensures AlertTotal(gs'[m]) <= ScoreSum(fs, gs'[m].alert) {
      if m < |gs| {
        assert GroupNames(gs)[m] != x.alert;
      }
    }
    TotalsAppend(gs, g);
  }

  lemma AddGroupBounded(fs: seq<Finding>, gs: seq<Group>)
    requires |fs| > 0
    requires GroupsAgree(fs[..|fs| - 1], gs)
    requires TotalsBounded(fs[..|fs| - 1], gs)
    ensures TotalsBounded(fs, AddGroup(gs, fs[|fs| - 1]))
    ensures GrandTotal(AddGroup(gs, fs[|fs| - 1])) <= GrandTotal(gs) + fs[|fs| - 1].score
  {
    var x := fs[|fs| - 1];
    var k := IndexOf(GroupNames(gs), x.alert);
    IndexOfMember(GroupNames(gs), x.alert);
    if k < |gs| {
      assert AddGroup(gs, x) == gs[k := Group(x.alert, x.riskdesc, x.confidence, AddUri(gs[k].uris, x.uri, x.score))];
      UpdateGroupBounded(fs, gs, k);
    } else {
      assert AddGroup(gs, x) == gs + [Group(x.alert, x.riskdesc, x.confidence, [UriScore(x.uri, x.score)])];
      AppendGroupBounded(fs, gs);
    }
  }

  /** Each alert's detailed total (sum of per-URI maxima) is at most its
      summary total (sum of all its scores), and the grand total is at most
      the sum of all the scores. */
  lemma {:induction false} TotalsAreBounded(fs: seq<Finding>)
    ensures TotalsBounded(fs, GroupAll(fs))
    ensures GrandTotal(GroupAll(fs)) <= TotalScore(fs)
  {
    if |fs| > 0 {
      var p := fs[..|fs| - 1];
      TotalsAreBounded(p);
      GroupAllCorrect(p);
      AddGroupBounded(fs, GroupAll(p));
    }
  }

  // The detailed report lists each alert's URIs sorted.

  ghost predicate SortedByUri(us: seq<UriScore>)
  {
    forall i, j :: 0 <= i < j < |us| ==> Less(us[i].uri, us[j].uri)
  }

  /** A list sorted by URI lists each URI once. */
  lemma SortedUrisDistinct(us: seq<UriScore>)
    requires SortedByUri(us)
    ensures Distinct(UriNames(us))
  {
    forall i, j | 0 <= i < j < |us| ensures us[i].uri != us[j].uri {
      if us[i].uri == us[j].uri {
        LessIrreflexive(us[i].uri);
      }
    }
  }

  lemma InsertFrontSorted(x: UriScore, us: seq<UriScore>)
    requires SortedByUri(us) && |us| > 0 && Less(x.uri, us[0].uri)
    ensures SortedByUri([x] + us)
  {
    forall j | 0 < j < |us| ensures Less(x.uri, us[j].uri) {
      LessTransitive(x.uri, us[0].uri, us[j].uri);
    }
  }

  lemma ConsSorted(y: UriScore, r: seq<UriScore>, rest: seq<UriScore>, x: UriScore)
    requires SortedByUri(r)
    requires multiset(r) == multiset(rest) + multiset{x}
    requires forall i :: 0 <= i < |rest| ==> Less(y.uri, rest[i].uri)
    requires Less(y.uri, x.uri)
    ensures SortedByUri([y] + r)
  {
    forall j | 0 <= j < |r| ensures Less(y.uri, r[j].uri) {
      assert r[j] in multiset(r);
      if r[j] != x {
        assert r[j] in multiset(rest);
      }
    }
  }

  /** Insert into a sorted URI list whose URIs differ from the new one. */
  function InsertByUri(x: UriScore, us: seq<UriScore>): (r: seq<UriScore>)
    requires SortedByUri(us)
    requires forall i :: 0 <= i < |us| ==> us[i].uri != x.uri
    ensures SortedByUri(r)
    ensures multiset(r) == multiset(us) + multiset{x}
  {
    if |us| == 0 then [x]
    else if Less(x.uri, us[0].uri) then
      InsertFrontSorted(x, us);
      [x] + us
    else
      LessTotal(x.uri, us[0].uri);
      var r := InsertByUri(x, us[1..]);
      ConsSorted(us[0], r, us[1..], x);
      assert us == [us[0]] + us[1..];
      [us[0]] + r
  }

  lemma DistinctTail(us: seq<UriScore>)
    requires |us| > 0 && Distinct(UriNames(us))
    ensures Distinct(UriNames(us[1..]))
  {
    assert forall i :: 0 <= i < |us| - 1 ==> UriNames(us[1..])[i] == UriNames(us)[i + 1];
  }

  /** A permutation of the tail of a list with distinct URIs avoids the
      head's URI. */
  lemma HeadUriFresh(us: seq<UriScore>, r: seq<UriScore>)
    requires |us| > 0 && Distinct(UriNames(us))
    requires multiset(r) == multiset(us[1..])
    ensures forall i :: 0 <= i < |r| ==> r[i].uri != us[0].uri
  {
    forall i | 0 <= i < |r| ensures r[i].uri != us[0].uri {
      assert r[i] in multiset(us[1..]);
      var j :| 0 <= j < |us[1..]| && us[1..][j] == r[i];
      assert UriNames(us)[j + 1] != UriNames(us)[0];
    }
  }

  /** Sort a URI list with distinct URIs (Python's `sorted` on the items). */
  function SortByUri(us: seq<UriScore>): (r: seq<UriScore>)
    requires Distinct(UriNames(us))
    ensures SortedByUri(r)
    ensures multiset(r) == multiset(us)
  {
    if |us| == 0 then []
    else
      DistinctTail(us);
      var r := SortByUri(us[1..]);
      HeadUriFresh(us, r);
      assert us == [us[0]] + us[1..];
      InsertByUri(us[0], r)
  }

  lemma MaximaConcat(a: seq<UriScore>, b: seq<UriScore>)
    ensures Maxima(a + b) == Maxima(a) + Maxima(b)
  {
  }

  /** Removing the entry at position `i` lowers the total by its score. */
  lemma TotalRemove(b: seq<UriScore>, i: nat)
    requires i < |b|
    ensures Sum(Maxima(b)) == b[i].maxScore + Sum(Maxima(b[..i] + b[i + 1..]))
  {
    assert b == b[..i] + ([b[i]] + b[i + 1..]);
    MaximaConcat(b[..i], [b[i]] + b[i + 1..]);
    MaximaConcat([b[i]], b[i + 1..]);
    MaximaConcat(b[..i], b[i + 1..]);
    SumConcat(Maxima(b[..i]), Maxima([b[i]] + b[i + 1..]));
    SumConcat(Maxima(b[..i]), Maxima(b[i + 1..]));
  }

  lemma MultisetRemove(b: seq<UriScore>, i: nat)
    requires i < |b|
    ensures multiset(b[..i] + b[i + 1..]) == multiset(b) - multiset{b[i]}
  {
    assert b == b[..i] + [b[i]] + b[i + 1..];
  }

  lemma MatchingIndex(a: seq<UriScore>, b: seq<UriScore>) returns (i: nat)
    requires |a| > 0 && multiset(a) == multiset(b)
    ensures i < |b| && b[i] == a[0]
  {
    assert a[0] in multiset(a);
    assert a[0] in b;
    i :| 0 <= i < |b| && b[i] == a[0];
  }

  /** A URI table's total does not depend on the order of its entries. */
  lemma {:induction false} TotalIsOrderFree(a: seq<UriScore>, b: seq<UriScore>)
    requires multiset(a) == multiset(b)
    ensures Sum(Maxima(a)) == Sum(Maxima(b))
    decreases |a|
  {
    if |a| == 0 {
      assert |b| == |multiset(b)| == 0;
      assert b == [];
    } else {
      var i := MatchingIndex(a, b);
      var a', b' := a[..0] + a[1..], b[..i] + b[i + 1..];
      assert |a'| < |a|;
      assert multiset(a') == multiset(b') by {
        MultisetRemove(b, i);
        MultisetRemove(a, 0);
      }
      TotalIsOrderFree(a', b');
      TotalRemove(b, i);
      TotalRemove(a, 0);
    }
  }

  /** One section of the detailed report. */
  datatype Block = Block(alert: string, risk: string, confidence: string, total: nat, uris: seq<UriScore>)

  /** The detailed report: one block per alert and the overall total. */
  datatype Details = Details(blocks: seq<Block>, grandTotal: nat)

  /** The section of one alert: its URIs sorted, without repeats, and a
      total equal to the sum of the scores it lists. */
  function BlockOf(g: Group): (b: Block)
    requires Distinct(UriNames(g.uris))
    ensures b.alert == g.alert && b.risk == g.risk && b.confidence == g.confidence
    ensures SortedByUri(b.uris) && multiset(b.uris) == multiset(g.uris)
    ensures b.total == Sum(Maxima(b.uris))
  {
    var sorted := SortByUri(g.uris);
    TotalIsOrderFree(g.uris, sorted);
    Block(g.alert, g.risk, g.confidence, AlertTotal(g), sorted)
  }

  /** Every group lists each URI once. */
  ghost predicate UrisDistinct(gs: seq<Group>)
  {
    forall k :: 0 <= k < |gs| ==> Distinct(UriNames(gs[k].uris))
  }

  /** The totals the blocks list, in block order. */
  function BlockTotals(bs: seq<Block>): (ts: seq<nat>)
    ensures |ts| == |bs|
    ensures forall k :: 0 <= k < |bs| ==> ts[k] == bs[k].total
  {
    seq(|bs|, k requires 0 <= k < |bs| => bs[k].total)
  }

  /** A block's listed total is its group's sum of maxima. */
  lemma BlockTotalsAgree(gs: seq<Group>, bs: seq<Block>)
    requires UrisDistinct(gs)
    requires |bs| == |gs| && forall k :: 0 <= k < |gs| ==> bs[k] == BlockOf(gs[k])
    ensures BlockTotals(bs) == Totals(gs)
  {
    forall k | 0 <= k < |gs| ensures BlockTotals(bs)[k] == Totals(gs)[k] {
      TotalIsOrderFree(gs[k].uris, bs[k].uris);
    }
  }

  /** The detailed report: one block per group, in group order, and a grand
      total equal to the sum of the totals its blocks list. */
  function Detail(gs: seq<Group>): (d: Details)
    requires UrisDistinct(gs)
    ensures |d.blocks| == |gs|
    ensures forall k :: 0 <= k < |gs| ==> d.blocks[k] == BlockOf(gs[k])
    ensures d.grandTotal == Sum(BlockTotals(d.blocks))
  {
    var blocks := seq(|gs|, k requires 0 <= k < |gs| => BlockOf(gs[k]));
    BlockTotalsAgree(gs, blocks);
    Details(blocks, GrandTotal(gs))
  }
}
