/** The per-alert summary: one row per alert name, in first-seen order,
    holding the number of surviving findings, the last-seen risk
    description and confidence, and the running total of their scores. */
module Summary {
  import opened ZapReport
  import opened Sequences

  datatype Row = Row(alert: string, count: nat, risk: string, confidence: string, totalScore: nat)

  /** Alert names of the findings, in order. */
  function Names(fs: seq<Finding>): (ns: seq<string>)
    ensures |ns| == |fs|
    ensures forall k :: 0 <= k < |fs| ==> ns[k] == fs[k].alert
  {
    seq(|fs|, k requires 0 <= k < |fs| => fs[k].alert)
  }

  function RowNames(rows: seq<Row>): (ns: seq<string>)
    ensures |ns| == |rows|
    ensures forall k :: 0 <= k < |rows| ==> ns[k] == rows[k].alert
  {
    seq(|rows|, k requires 0 <= k < |rows| => rows[k].alert)
  }

  /** Fold one surviving finding into the summary (a dictionary keyed by
      alert name whose missing entries start at zero and empty text). */
  function AddRow(rows: seq<Row>, f: Finding): seq<Row>
  {
    var k := IndexOf(RowNames(rows), f.alert);
    if k < |rows| then
      rows[k := Row(f.alert, rows[k].count + 1, f.riskdesc, f.confidence, rows[k].totalScore + f.score)]
    else
      rows + [Row(f.alert, 1, f.riskdesc, f.confidence, f.score)]
  }

  /** The summary of a sequence of surviving findings, folded in order. */
  function Summarize(fs: seq<Finding>): seq<Row>
  {
    if |fs| == 0 then [] else AddRow(Summarize(fs[..|fs| - 1]), fs[|fs| - 1])
  }

  // Reference definitions the summary is checked against.

  /** Number of findings named `n`. */
  function CountOf(fs: seq<Finding>, n: string): nat
  {
    if |fs| == 0 then 0
    else CountOf(fs[..|fs| - 1], n) + (if fs[|fs| - 1].alert == n then 1 else 0)
  }

  /** Sum of the scores of the findings named `n`. */
  function ScoreSum(fs: seq<Finding>, n: string): nat
  {
    if |fs| == 0 then 0
    else ScoreSum(fs[..|fs| - 1], n) + (if fs[|fs| - 1].alert == n then fs[|fs| - 1].score else 0)
  }

  /** Position of the last finding named `n`, or -1 when there is none. */
  function LastIndex(fs: seq<Finding>, n: string): (j: int)
    ensures -1 <= j < |fs|
    ensures j >= 0 ==> fs[j].alert == n
    ensures forall i :: j < i < |fs| ==> fs[i].alert != n
  {
    if |fs| == 0 then -1
    else if fs[|fs| - 1].alert == n then |fs| - 1
    else LastIndex(fs[..|fs| - 1], n)
  }

  /** A row agrees with the findings it summarises: it counts and sums the
      findings of its alert and shows the last one's risk and confidence. */
  ghost predicate RowAgrees(fs: seq<Finding>, row: Row)
  {
    var j := LastIndex(fs, row.alert);
    && j >= 0
    && row.count == CountOf(fs, row.alert)
    && row.totalScore == ScoreSum(fs, row.alert)
    && row.risk == fs[j].riskdesc
    && row.confidence == fs[j].confidence
  }

  ghost predicate Summarises(fs: seq<Finding>, rows: seq<Row>)
  {
    && RowNames(rows) == FirstSeen(Names(fs))
    && forall k :: 0 <= k < |rows| ==> RowAgrees(fs, rows[k])
  }

  lemma {:induction false} AbsentName(fs: seq<Finding>, n: string)
    requires n !in Names(fs)
    ensures CountOf(fs, n) == 0 && ScoreSum(fs, n) == 0
  {
    if |fs| > 0 {
      var p := fs[..|fs| - 1];
      assert forall k :: 0 <= k < |p| ==> Names(p)[k] == Names(fs)[k];
      AbsentName(p, n);
    }
  }

  lemma NamesSnoc(fs: seq<Finding>)
    requires |fs| > 0
    ensures Names(fs) == Names(fs[..|fs| - 1]) + [fs[|fs| - 1].alert]
    ensures FirstSeen(Names(fs)) == FirstSeen(Names(fs[..|fs| - 1])) +
      (if fs[|fs| - 1].alert in Names(fs[..|fs| - 1]) then [] else [fs[|fs| - 1].alert])
  {
    var ns := Names(fs);
    assert ns[..|ns| - 1] == Names(fs[..|fs| - 1]);
  }

  /** A row of another alert is unaffected by a new finding. */
  lemma OtherRowUnchanged(fs: seq<Finding>, row: Row)
    requires |fs| > 0
    requires RowAgrees(fs[..|fs| - 1], row)
    requires row.alert != fs[|fs| - 1].alert
    ensures RowAgrees(fs, row)
  {
    var p := fs[..|fs| - 1];
    assert fs[LastIndex(p, row.alert)] == p[LastIndex(p, row.alert)];
  }

  /** The row of the new finding's alert counts it, adds its score and
      takes its risk and confidence. */
  lemma OwnRowUpdated(fs: seq<Finding>, row: Row)
    requires |fs| > 0
    requires RowAgrees(fs[..|fs| - 1], row)
    requires row.alert == fs[|fs| - 1].alert
    ensures RowAgrees(fs, Row(row.alert, row.count + 1, fs[|fs| - 1].riskdesc,
                              fs[|fs| - 1].confidence, row.totalScore + fs[|fs| - 1].score))
  {
  }

  /** A first finding of its alert starts a fresh row. */
  lemma NewRowStarted(fs: seq<Finding>)
    requires |fs| > 0
    requires fs[|fs| - 1].alert !in Names(fs[..|fs| - 1])
    ensures var x := fs[|fs| - 1];
      RowAgrees(fs, Row(x.alert, 1, x.riskdesc, x.confidence, x.score))
  {
    AbsentName(fs[..|fs| - 1], fs[|fs| - 1].alert);
  }

  lemma RowNamesUpdate(rows: seq<Row>, k: nat, row: Row)
    requires k < |rows| && row.alert == rows[k].alert
    ensures RowNames(rows[k := row]) == RowNames(rows)
  {
  }

  /** The fold step when the alert already has a row. */
  lemma UpdateStep(fs: seq<Finding>, rows: seq<Row>, k: nat)
    requires |fs| > 0
    requires Summarises(fs[..|fs| - 1], rows)
    requires k < |rows| && rows[k].alert == fs[|fs| - 1].alert
    requires fs[|fs| - 1].alert in Names(fs[..|fs| - 1])
    ensures var x := fs[|fs| - 1];
      Summarises(fs, rows[k := Row(x.alert, rows[k].count + 1, x.riskdesc, x.confidence, rows[k].totalScore + x.score)])
  {
    var p, x := fs[..|fs| - 1], fs[|fs| - 1];
    var row := Row(x.alert, rows[k].count + 1, x.riskdesc, x.confidence, rows[k].totalScore + x.score);
    var rows' := rows[k := row];
    NamesSnoc(fs);
    assert FirstSeen(Names(fs)) == FirstSeen(Names(p));
    RowNamesUpdate(rows, k, row);
    forall m | 0 <= m < |rows'| ensures RowAgrees(fs, rows'[m]) {
      assert RowAgrees(p, rows[m]);
      if m != k {
        assert RowNames(rows)[m] != RowNames(rows)[k];
        OtherRowUnchanged(fs, rows[m]);
      } else {
        OwnRowUpdated(fs, rows[k]);
      }
    }
  }

  /** The fold step when the alert is new. */
  lemma AppendStep(fs: seq<Finding>, rows: seq<Row>)
    requires |fs| > 0
    requires Summarises(fs[..|fs| - 1], rows)
    requires fs[|fs| - 1].alert !in Names(fs[..|fs| - 1])
    ensures var x := fs[|fs| - 1];
      Summarises(fs, rows + [Row(x.alert, 1, x.riskdesc, x.confidence, x.score)])
  {
    var x := fs[|fs| - 1];
    var rows' := rows + [Row(x.alert, 1, x.riskdesc, x.confidence, x.score)];
    NamesSnoc(fs);
    assert RowNames(rows') == RowNames(rows) + [x.alert];
    forall m | 0 <= m < |rows'| ensures RowAgrees(fs, rows'[m]) {
      if m < |rows| {
        assert RowNames(rows)[m] in FirstSeen(Names(fs[..|fs| - 1]));
        OtherRowUnchanged(fs, rows[m]);
      } else {
        NewRowStarted(fs);
      }
    }
  }

  /** One fold step keeps the summary in agreement with the findings. */
  lemma AddRowStep(fs: seq<Finding>, rows: seq<Row>)
    requires |fs| > 0
    requires Summarises(fs[..|fs| - 1], rows)
    ensures Summarises(fs, AddRow(rows, fs[|fs| - 1]))
  {
    var p, x := fs[..|fs| - 1], fs[|fs| - 1];
    var k := IndexOf(RowNames(rows), x.alert);
    FirstSeenMember(Names(p), x.alert);
    IndexOfMember(RowNames(rows), x.alert);
    assert x.alert in Names(p) <==> k < |rows|;
    if k < |rows| {
      assert AddRow(rows, x) == rows[k := Row(x.alert, rows[k].count + 1, x.riskdesc, x.confidence, rows[k].totalScore + x.score)];
      UpdateStep(fs, rows, k);
    } else {
      assert AddRow(rows, x) == rows + [Row(x.alert, 1, x.riskdesc, x.confidence, x.score)];
      AppendStep(fs, rows);
    }
  }

  /** The summary has one row per alert name in first-seen order; each row
      counts and sums the surviving findings of that name and carries the
      risk description and confidence of the last of them. */
  lemma {:induction false} SummarizeCorrect(fs: seq<Finding>)
    ensures Summarises(fs, Summarize(fs))
  {
    if |fs| > 0 {
      SummarizeCorrect(fs[..|fs| - 1]);
      AddRowStep(fs, Summarize(fs[..|fs| - 1]));
    }
  }
}
