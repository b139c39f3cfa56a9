# ZAP report cleaner, modelled in Dafny

This project models the core of `zap_report_cleaner.py`, the step of a CI/CD
penetration-testing pipeline that post-processes an OWASP ZAP JSON report.
The model covers the whole transform:

- **Scoring** (`Scoring`). The risk code maps to a severity weight (5, 3, 2, 1
  for "3", "2", "1", "0"; 0 otherwise). The confidence code maps to a
  coefficient (0.0, 0.5, 0.8, 1.0). A finding's score is their product.
  Scores are exact integers counted in tenths of a point, so a score lies
  between 0 and 50 and the threshold 10.0 is 100.
- **The report** (`ZapReport`). Sites, alerts and instances keep every
  JSON field optional. Accessors apply the source's `.get` defaults:
  risk and confidence default to "0", every other field to "".
  An alert's instances become *occurrences* and then candidate
  *findings*. The identity key is (alert name, uri, method, param,
  evidence digest).
- **Per-site de-duplication** (`Dedup`). An instance survives exactly when
  no earlier instance of the same site carries its key. The loop with a
  `seen` set is `DedupSite`; `Survivors` is the declarative reference.
- **Summary** (`Summary`). One row per alert name, in first-seen order.
  Each row holds the count, the last-seen risk description and confidence,
  and the total score.
- **Detailed report** (`Grouped`). One group per alert name. Each group keeps
  the last-seen risk and confidence, and the *maximum* score per URI. An
  alert's total is the sum of its per-URI maxima, and the grand total is the
  sum of those. URIs are listed in code-point order. The source sorts
  (uri, score) pairs, but a group's URIs are distinct, so this is the same
  order.
- **Run and threshold** (`Cleaner`). Every site is cleaned with a fresh
  `seen` set, then the two reports are computed. An alert without a name
  that has at least one instance aborts the whole run. The run fails the
  check when the grand total exceeds 10.0.
- **Scenarios** (`Scenarios`). Behaviours stated over whole sites and
  concrete reports: strict versus relaxed evidence, independent sites,
  nameless alerts, and the maximum-versus-sum totals.

Every fold of the source over an insertion-ordered dictionary is a fold
over a sequence of rows, found with `Sequences.IndexOf`. Each fold is proved
to agree, row by row, with reference definitions that use no dictionary:
`FirstSeen` (first-seen order), `CountOf`, `ScoreSum`, `LastIndex` (last
write wins), `UrisOf` and `MaxScore`.

Behaviours of note, all as the code does them:

- An absent risk code defaults to "0" and so weighs 1, not 0.
- A nameless alert with an instance aborts the whole run, not just its
  site. A nameless alert with no instances is never looked at, so it is
  skipped without error.
- A missing top-level `site` key reads as an empty list, not as an error.
- Without a detailed report the grand total stays 0 and the run passes.
  There is no separate "not evaluated" outcome.
- Re-running the tool on its own output does not reproduce it, because
  the output JSON has no `instances`. Re-filtering the survivors is a
  fixed point: `Dedup.SurvivorsIdempotent`.

## Model

| member | source | states |
|---|---|---|
| Scoring.Severity | zap_report_cleaner.py:16-23 | the weight is at most 5, and it is 0 exactly for a risk code outside "0".."3" |
| Scoring.Coefficient | zap_report_cleaner.py:7-13 | the coefficient is at most 1.0, and it is 0 exactly for confidence "0" or an unrecognised code |
| Scoring.Score | zap_report_cleaner.py:58 | a score lies in [0.0, 5.0], and it is 0 exactly when the risk code is unknown or the confidence gives coefficient 0 |
| Scoring.ScalesAreMonotone | zap_report_cleaner.py:7-23 | on recognised codes, a higher code gives a strictly higher weight and a strictly higher coefficient |
| Scoring.ScoreCorners | zap_report_cleaner.py:7-23 | critical risk with full confidence scores 5.0; confidence "0" or an unknown risk code scores 0.0 |
| ZapReport.Expand | zap_report_cleaner.py:44 | an alert has one occurrence per instance, and occurrence k is instance k |
| ZapReport.Occurrences | zap_report_cleaner.py:38-44 | a site's occurrences are exactly the (alert, instance) pairs of its alerts |
| ZapReport.OccurrencesSingle | zap_report_cleaner.py:44 | a single alert contributes its instances, in instance order |
| ZapReport.OccurrencesConcat | zap_report_cleaner.py:38-44 | alerts are processed one after the other: the occurrences of concatenated alert lists are those of each list, in turn |
| ZapReport.SiteFindingsConcat | zap_report_cleaner.py:38-69 | the candidate findings of concatenated alert lists are those of each list, in turn |
| ZapReport.AlertFindings | zap_report_cleaner.py:44-69 | a named alert yields one finding per instance, in instance order, copying the alert's name, risk description and confidence and the instance's uri, method, param and evidence, scored from the alert's codes |
| ZapReport.MalformedIff | zap_report_cleaner.py:44-48 | looking up a missing alert name happens exactly when some alert without a name has at least one instance |
| ZapReport.MissingCodesDefault | zap_report_cleaner.py:39-42 | an absent risk code scores as code "0" (weight 1); an absent confidence records "0" and scores 0 |
| ZapReport.FindingScoreBounds | zap_report_cleaner.py:41-58 | a finding's score is weight times coefficient and at most 5.0 |
| ZapReport.KeyCollision | zap_report_cleaner.py:45-53 | strict keys collide exactly when name, uri, method and param agree; relaxed keys need equal evidence too |
| Dedup.Survivors | zap_report_cleaner.py:54-56 | the kept findings are no more than the candidates and are drawn from them |
| Dedup.DedupSite | zap_report_cleaner.py:36-56 | the loop with a seen-key set keeps exactly the findings that are first with their key |
| Dedup.FirstIffUnseen | zap_report_cleaner.py:54-56 | a finding is first with its key exactly when its key is not yet among the keys seen before it |
| Dedup.SurvivorKeysDistinct | zap_report_cleaner.py:54-56 | no two kept findings of a site share a key |
| Dedup.SurvivorKeysComplete | zap_report_cleaner.py:54-56 | every key present in the site is kept by some finding |
| Dedup.SurvivorsInOrder | zap_report_cleaner.py:60 | the kept findings are a subsequence of the candidates, in input order |
| Dedup.SurvivorKeysFirstSeen | zap_report_cleaner.py:54-60 | the kept findings carry the site's distinct keys in first-seen order, so kept finding k is the first finding with the k-th distinct key |
| Dedup.SurvivorsAreFirsts | zap_report_cleaner.py:54-56 | a finding is kept if and only if it is the first occurrence of its key |
| Dedup.DistinctKeysAllSurvive | zap_report_cleaner.py:54-56 | a site whose keys are already distinct loses nothing |
| Dedup.SurvivorsIdempotent | zap_report_cleaner.py:54-56 | filtering the kept findings again removes nothing |
| Sequences.IndexOf | zap_report_cleaner.py:105 | the lookup returns the first position of the key, or the length when the key is absent |
| Sequences.FirstSeen | zap_report_cleaner.py:88 | first-seen order lists only names that occur, each once |
| Sequences.FirstSeenOrdered | zap_report_cleaner.py:88 | first-seen order lists every name that occurs, ordered by the position of its first occurrence |
| Sequences.FirstSeenIsSubseq | zap_report_cleaner.py:88 | first-seen order keeps the relative order of the names |
| Summary.SummarizeCorrect | zap_report_cleaner.py:30-89 | rows follow first-seen name order; each row's count, total score, risk and confidence match the counting, summing and last-occurrence references |
| Summary.AddRowStep | zap_report_cleaner.py:71-74 | folding one more finding keeps the summary in agreement with the references |
| Summary.LastIndex | zap_report_cleaner.py:72-73 | the reference for "last seen" points at the last finding with that name, or -1 |
| Grouped.GroupAllCorrect | zap_report_cleaner.py:93-110 | groups follow first-seen name order; each keeps the last risk and confidence, and lists each URI of the alert once, in first-seen order, with its maximum score |
| Grouped.MaxScoreIsMaximum | zap_report_cleaner.py:109-110 | the reference maximum bounds every score of the alert at the URI, is attained by one of them, and is -1 exactly when the alert never occurs at the URI |
| Grouped.AddUriStep | zap_report_cleaner.py:109-110 | recording a score at a URI keeps the URI table equal to the first-seen URIs with their maxima |
| Grouped.AddUriTotal | zap_report_cleaner.py:109-116 | recording a score raises the URI total by at most that score and never lowers it |
| Grouped.TotalsAreBounded | zap_report_cleaner.py:112-117 | an alert's detailed total is at most its summary total, and the grand total is at most the sum of all scores |
| Grouped.InsertByUri | zap_report_cleaner.py:123 | insertion into a URI-sorted list keeps it sorted and adds exactly the new entry |
| Grouped.SortByUri | zap_report_cleaner.py:123 | the listed URIs are strictly sorted and are a permutation of the group's URIs |
| Grouped.TotalIsOrderFree | zap_report_cleaner.py:116-123 | the sum of the maxima does not depend on the order of the URI entries |
| Grouped.BlockOf | zap_report_cleaner.py:115-124 | a block copies its alert's name, risk and confidence, lists its URIs sorted and permuted, and its total is the sum of the listed maxima |
| Grouped.Detail | zap_report_cleaner.py:112-128 | the detailed report has one block per group, in group order, and its grand total is the sum of the totals the blocks list |
| Grouped.SortedUrisDistinct | zap_report_cleaner.py:123 | a strictly URI-sorted list names no URI twice |
| LexOrder.LessTransitive | zap_report_cleaner.py:123 | code-point string order is transitive |
| LexOrder.LessTotal | zap_report_cleaner.py:123 | any two different strings are ordered one way or the other |
| Cleaner.CleanSites | zap_report_cleaner.py:34-76 | the run errs exactly when some site is malformed; otherwise each site is de-duplicated on its own, in site order |
| Cleaner.Run | zap_report_cleaner.py:25-136 | a run errs exactly when some site is malformed; details are present exactly when requested; only a run with details can fail the check |
| Cleaner.RunFailsIff | zap_report_cleaner.py:34-48 | a run errs exactly when some site holds a nameless alert with at least one instance |
| Cleaner.RunSitesIndependent | zap_report_cleaner.py:34-36 | each site's output is that site's de-duplication alone |
| Cleaner.RunSummaryCorrect | zap_report_cleaner.py:71-89 | the summary of a run agrees with the findings kept across all sites |
| Cleaner.BlockMatchesRow | zap_report_cleaner.py:88-124 | detailed block k and summary row k describe the same alert, risk and confidence; the block's total is at most the row's; its URIs are sorted and carry their maxima |
| Cleaner.RunDetailsCorrect | zap_report_cleaner.py:92-129 | the detailed report has one block per summary row, and its grand total is at most the sum of all kept scores |
| Cleaner.RunVerdict | zap_report_cleaner.py:133-136 | the check fails exactly when details were requested and the grand total exceeds 10.0 |
| Cleaner.ThresholdBoundary | zap_report_cleaner.py:133 | a total of exactly 10.0 passes, 10.1 fails |
| Cleaner.AsWrittenCheckFails | zap_report_cleaner.py:129-133 | as written, every run with details ends in a TypeError at the comparison; without details it agrees with the corrected check |
| Scenarios.StrictCollapsesEvidence | zap_report_cleaner.py:46-56 | in strict mode two instances differing only in evidence collapse to the first, which keeps its own evidence |
| Scenarios.RelaxedKeepsDifferentEvidence | zap_report_cleaner.py:46-56 | in relaxed mode two instances with different evidence both survive |
| Scenarios.FirstInstanceSurvives | zap_report_cleaner.py:54-60 | the first instance of a non-empty site is always kept, first |
| Scenarios.RepeatedSiteKeepsBoth | zap_report_cleaner.py:34-36 | a site repeated verbatim is cleaned identically both times; identical keys in different sites all survive |
| Scenarios.NamelessAlertFails | zap_report_cleaner.py:44-48 | a nameless alert with an instance makes the run fail |
| Scenarios.NamelessEmptyAlertSkipped | zap_report_cleaner.py:44 | a nameless alert without instances changes neither the findings nor the error outcome |
| Scenarios.MaxVersusSum | zap_report_cleaner.py:71-117 | one alert at one URI scored 2.0 then 3.0: the summary total is 5.0 with the later risk, the detailed total is 3.0, and the run passes |

## Left out

- File I/O, JSON parsing and serialisation, and the command-line parser
  (lines 26-27, 78-79, 139-148). The model takes the parsed report as a
  value and returns the outputs as values.
- The progress messages (lines 80, 90, 131, 134, 136). Line 131 prints
  the details message even when no detailed report was requested.
- The Markdown text of the summary and detailed reports (lines 86-89,
  118-128). The model produces their rows and blocks, not the characters.
- Floating point and `round(…, 2)`. Every score is a whole number of tenths,
  so rounding to two decimals never changes a value, and sums of tenths
  are exact here. Binary floating-point error in long sums is not modelled.
- `str(…)` coercion of risk and confidence codes (lines 13, 23). Codes are
  strings in the model; a JSON integer code is not represented.
- md5 (line 46). The relaxed digest is idealised as the evidence text
  itself, an injective digest; md5 collisions are not modelled.
- JSON values of unexpected types, such as a non-string evidence or a null
  list. Every field is either absent or of its expected type.
- webApp/app.py is a demo target application, not part of the transform.

## Findings

| source | as written | input that shows it | evidently intended | confidence | as-written member | corrected member |
|---|---|---|---|---|---|---|
| zap_report_cleaner.py:129-133 | `totalScore = {round(grand_total_score, 2)}` stores the grand total in a set, so `totalScore > 10` raises TypeError | any run with a details path, e.g. an input `{"site": []}` with `--details d.md` | compare the rounded grand total itself with 10 | not executed | Cleaner.AsWrittenCheckFails | Cleaner.RunVerdict |
