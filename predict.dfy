/** The rule-based parts of the prediction script (ml_scripts/predict.py):
    severity from attack type and confidence, the per-sample result records,
    the attack-type counts of a batch run, the summary report, and the
    zero-padded feature matrix. The trained models, pandas preprocessing and
    file I/O are outside the model: predicted labels and confidences are
    inputs. */
module Predict {
  import opened Common

  // ---------------------------------------------------------------------------
  // Severity

  /** The attack types the script knows, by lower-case name. */
  const SeverityMap: map<string, string> := map[
    "dos" := "high",
    "ddos" := "critical",
    "probe" := "medium",
    "r2l" := "high",
    "u2r" := "critical",
    "brute_force" := "high",
    "sql_injection" := "critical",
    "xss" := "medium",
    "port_scan" := "medium",
    "malware" := "critical",
    "phishing" := "high"]

  const HighConfidence: real := 0.9
  const LowConfidence: real := 0.6

  /** Severities ordered low < medium < high < critical. */
  function Rank(severity: string): int {
    if severity == "low" then 0
    else if severity == "medium" then 1
    else if severity == "high" then 2
    else if severity == "critical" then 3
    else -1
  }

  /** `severity_map.get(attack_type.lower(), 'medium')` */
  function BaseSeverity(attackType: string): (s: string)
    ensures s in {"medium", "high", "critical"}
    ensures ToLower(attackType) in SeverityMap ==> s == SeverityMap[ToLower(attackType)]
    ensures ToLower(attackType) !in SeverityMap ==> s == "medium"
  {
    var key := ToLower(attackType);
    if key in SeverityMap then SeverityMap[key] else "medium"
  }

  /** The lookup ignores the case of the attack type. */
  lemma BaseSeverityIgnoresCase(attackType: string)
    ensures BaseSeverity(attackType) == BaseSeverity(ToLower(attackType))
  {
    ToLowerIdempotent(attackType);
  }

  /** `get_severity`. An attack type of exactly "normal" is low whatever the
      confidence; anything else starts from its base severity, which a
      confidence above 0.9 raises one step (critical stays critical) and a
      confidence below 0.6 lowers one step (medium stays medium). */
  function GetSeverity(attackType: string, confidence: real): (s: string)
    ensures Rank(s) >= 0
    ensures s == "low" <==> attackType == "normal"
    ensures attackType != "normal" && confidence > HighConfidence ==>
      Rank(s) == Min(Rank(BaseSeverity(attackType)) + 1, 3)
    ensures attackType != "normal" && confidence < LowConfidence ==>
      Rank(s) == Max(Rank(BaseSeverity(attackType)) - 1, 1)
    ensures attackType != "normal" && LowConfidence <= confidence <= HighConfidence ==>
      s == BaseSeverity(attackType)
  {
    if attackType == "normal" then "low"
    else
      var base := BaseSeverity(attackType);
      if confidence > HighConfidence then
        if base == "medium" then "high"
        else if base == "high" then "critical"
        else base
      else if confidence < LowConfidence then
        if base == "critical" then "high"
        else if base == "high" then "medium"
        else base
      else base
  }

  function Max(a: int, b: int): int { if a >= b then a else b }

  /** The comparison with "normal" is exact, while the table lookup ignores
      case: "Normal" is an attack of unknown type, so medium at middling
      confidence. */
  lemma CapitalisedNormalIsMedium()
    ensures GetSeverity("Normal", 0.75) == "medium"
    ensures GetSeverity("normal", 0.99) == "low"
    ensures GetSeverity("DDoS", 0.5) == "high"
  {
    assert ToLower("Normal") == "normal";
    assert ToLower("DDoS") == "ddos";
  }

  // ---------------------------------------------------------------------------
  // Per-sample results

  datatype PredictionResult = PredictionResult(
    index: nat,
    prediction: string,
    confidence: real,
    isAttack: bool,
    severity: string)

  function MakeResult(i: nat, predicted: string, confidence: real): (r: PredictionResult)
    ensures r.isAttack <==> predicted != "normal"
    ensures r.severity == "low" <==> !r.isAttack
    ensures r.index == i && r.prediction == predicted && r.confidence == confidence
  {
    PredictionResult(i, predicted, confidence, predicted != "normal", GetSeverity(predicted, confidence))
  }

  /** The result loop of `predict` over `zip(labels, confidences)`, which
      stops at the shorter of the two. */
  method BuildResults(labels: seq<string>, confidences: seq<real>) returns (results: seq<PredictionResult>)
    ensures |results| == Min(|labels|, |confidences|)
    ensures forall i :: 0 <= i < |results| ==> results[i] == MakeResult(i, labels[i], confidences[i])
    ensures forall i :: 0 <= i < |results| ==> (results[i].isAttack <==> labels[i] != "normal")
  {
    var n := Min(|labels|, |confidences|);
    results := [];
    var i := 0;
    while i < n
      invariant 0 <= i <= n
      invariant |results| == i
      invariant forall j :: 0 <= j < i ==> results[j] == MakeResult(j, labels[j], confidences[j])
    {
      results := results + [MakeResult(i, labels[i], confidences[i])];
      i := i + 1;
    }
  }

  function PredictionOf(r: PredictionResult): string { r.prediction }

  function SeverityOfResult(r: PredictionResult): string { r.severity }

  // ---------------------------------------------------------------------------
  // Counting loops

  /** `counts[k] = counts.get(k, 0) + 1` over a column: one entry per distinct
      value, each the number of times the value occurs, adding up to the
      length of the column. */
  method CountValues(column: seq<string>) returns (counts: seq<(string, nat)>)
    ensures counts == Tally(column)
  {
    counts := [];
    var i := 0;
    while i < |column|
      invariant 0 <= i <= |column|
      invariant counts == Tally(column[..i])
    {
      TakeSnoc(column, i);
      TallySnoc(column[..i], column[i]);
      counts := Bump(counts, column[i]);
      i := i + 1;
    }
    assert column[..i] == column;
  }

  function IsAttackResult(r: PredictionResult): bool {
    r.isAttack
  }

  // ---------------------------------------------------------------------------
  // Batch runs

  /** One model's run: its name and what `predict` returned (None when the
      model or the data could not be used). */
  datatype Run = Run(modelName: string, results: Option<seq<PredictionResult>>)

  /** `if results:` holds for a run that returned a non-empty list. */
  predicate Returned(x: Run) {
    x.results.Some? && |x.results.value| > 0
  }

  /** The entries `all_results` collects, in run order: one (name, results)
      pair per run for which `if results:` holds. */
  function Kept(runs: seq<Run>): (r: seq<(string, seq<PredictionResult>)>)
    ensures |r| <= |runs|
    ensures forall i :: 0 <= i < |r| ==> |r[i].1| > 0
    decreases |runs|
  {
    if runs == [] then []
    else
      var init, last := runs[..|runs| - 1], runs[|runs| - 1];
      Kept(init) + (if Returned(last) then [(last.modelName, last.results.value)] else [])
  }

  /** A run is kept exactly when it returned a non-empty list: every such
      run's (name, results) entry is kept, and every kept entry is the entry
      of such a run. */
  lemma {:induction false} KeptExactly(runs: seq<Run>)
    ensures forall i :: 0 <= i < |runs| && Returned(runs[i]) ==>
      (runs[i].modelName, runs[i].results.value) in Kept(runs)
    ensures forall e :: e in Kept(runs) ==>
      exists i :: 0 <= i < |runs| && Returned(runs[i]) && e == (runs[i].modelName, runs[i].results.value)
    decreases |runs|
  {
    if runs != [] {
      var init := runs[..|runs| - 1];
      KeptExactly(init);
      assert forall i :: 0 <= i < |init| ==> init[i] == runs[i];
    }
  }

  lemma KeptSnoc(runs: seq<Run>, x: Run)
    ensures Kept(runs + [x]) == Kept(runs) + (if Returned(x) then [(x.modelName, x.results.value)] else [])
  {
    assert (runs + [x])[..|runs + [x]| - 1] == runs;
  }

  /** Each kept run's entry of `attack_counts` is the tally of its predictions. */
  predicate CountsOfRuns(allResults: seq<(string, seq<PredictionResult>)>, attackCounts: seq<seq<(string, nat)>>) {
    && |attackCounts| == |allResults|
    && forall i :: 0 <= i < |allResults| ==> attackCounts[i] == Tally(Column(allResults[i].1, PredictionOf))
  }

  lemma CountsOfRunsSnoc(allResults: seq<(string, seq<PredictionResult>)>, attackCounts: seq<seq<(string, nat)>>,
                         x: (string, seq<PredictionResult>), counts: seq<(string, nat)>)
    requires CountsOfRuns(allResults, attackCounts)
    requires counts == Tally(Column(x.1, PredictionOf))
    ensures CountsOfRuns(allResults + [x], attackCounts + [counts])
  {
    var a, c := allResults + [x], attackCounts + [counts];
    forall i | 0 <= i < |a|
      ensures c[i] == Tally(Column(a[i].1, PredictionOf))
    {
      if i < |allResults| {
        assert a[i] == allResults[i] && c[i] == attackCounts[i];
      }
    }
  }

  /** The loop of `batch_predict`: the kept runs, and for each the count of
      every predicted attack type, which adds up to the number of results. */
  method BatchPredict(runs: seq<Run>) returns (allResults: seq<(string, seq<PredictionResult>)>, attackCounts: seq<seq<(string, nat)>>)
    ensures allResults == Kept(runs)
    ensures |attackCounts| == |allResults|
    ensures forall i :: 0 <= i < |allResults| ==> attackCounts[i] == Tally(Column(allResults[i].1, PredictionOf))
    ensures forall i :: 0 <= i < |allResults| ==> SumCounts(attackCounts[i]) == |allResults[i].1|
  {
    allResults, attackCounts := [], [];
    var i := 0;
    while i < |runs|
      invariant 0 <= i <= |runs|
      invariant allResults == Kept(runs[..i])
      invariant CountsOfRuns(allResults, attackCounts)
    {
      var run := runs[i];
      TakeSnoc(runs, i);
      KeptSnoc(runs[..i], run);
      if Returned(run) {
        var counts := CountValues(Column(run.results.value, PredictionOf));
        CountsOfRunsSnoc(allResults, attackCounts, (run.modelName, run.results.value), counts);
        allResults := allResults + [(run.modelName, run.results.value)];
        attackCounts := attackCounts + [counts];
      }
      i := i + 1;
    }
    assert runs[..i] == runs;
    forall j | 0 <= j < |allResults|
      ensures SumCounts(attackCounts[j]) == |allResults[j].1|
    {
      assert |Column(allResults[j].1, PredictionOf)| == |allResults[j].1|;
    }
  }

  // ---------------------------------------------------------------------------
  // Summary

  datatype Summary = Summary(
    totalSamples: nat,
    attackSamples: nat,
    normalSamples: int,
    attackRate: real,
    severityDistribution: seq<(string, nat)>)

  /** `attack_samples / total_samples if total_samples > 0 else 0` */
  function AttackRate(attacks: nat, total: nat): real {
    if total > 0 then attacks as real / total as real else 0.0
  }

  /** The rate is the fraction of attacks, zero for no samples, and within
      [0, 1] whenever the attacks are among the samples. */
  lemma AttackRateIsFraction(attacks: nat, total: nat)
    ensures total == 0 ==> AttackRate(attacks, total) == 0.0
    ensures total > 0 ==> AttackRate(attacks, total) * total as real == attacks as real
    ensures 0.0 <= AttackRate(attacks, total)
    ensures attacks <= total ==> AttackRate(attacks, total) <= 1.0
  {
    if total > 0 {
      var rate := attacks as real / total as real;
      assert rate * total as real == attacks as real;
      assert attacks <= total && rate > 1.0 ==> rate * total as real > total as real;
    }
  }

  /** The summary `generate_summary` reports for one model's results. */
  function SummaryOf(results: seq<PredictionResult>): Summary {
    var total := |results|;
    var attacks := |Filter(results, IsAttackResult)|;
    Summary(total, attacks, total - attacks, AttackRate(attacks, total), Tally(Column(results, SeverityOfResult)))
  }

  /** Attacks and normals add up to the total, the severity counts add up to
      the total, and no attacks are reported exactly when no result is an
      attack. */
  lemma SummaryCountsAddUp(results: seq<PredictionResult>)
    ensures var s := SummaryOf(results);
      && s.totalSamples == |results|
      && 0 <= s.normalSamples
      && s.attackSamples + s.normalSamples == s.totalSamples
      && s.attackSamples <= s.totalSamples
      && 0.0 <= s.attackRate <= 1.0
      && SumCounts(s.severityDistribution) == s.totalSamples
      && (s.attackSamples == 0 <==> forall r :: r in results ==> !r.isAttack)
  {
    var attacks := Filter(results, IsAttackResult);
    assert |attacks| > 0 ==> attacks[0] in attacks;
    AttackRateIsFraction(|attacks|, |results|);
  }

  /** The attack-counting loop of `generate_summary`. */
  method CountAttacks(results: seq<PredictionResult>) returns (attacks: nat)
    ensures attacks == |Filter(results, IsAttackResult)|
  {
    attacks := 0;
    var i := 0;
    while i < |results|
      invariant 0 <= i <= |results|
      invariant attacks == |Filter(results[..i], IsAttackResult)|
    {
      TakeSnoc(results, i);
      FilterSnoc(results[..i], results[i], IsAttackResult);
      if results[i].isAttack {
        attacks := attacks + 1;
      }
      i := i + 1;
    }
    assert results[..i] == results;
  }

  /** The body of `generate_summary` for one model: a counting loop for the
      attacks and one for the severities. */
  method SummarizeOne(results: seq<PredictionResult>) returns (s: Summary)
    ensures s == SummaryOf(results)
  {
    var attacks := CountAttacks(results);
    var severities := CountValues(Column(results, SeverityOfResult));
    var total := |results|;
    s := Summary(total, attacks, total - attacks, AttackRate(attacks, total), severities);
  }

  /** `generate_summary`: one summary per model, in order. */
  method GenerateSummary(allResults: seq<(string, seq<PredictionResult>)>) returns (summary: seq<(string, Summary)>)
    ensures |summary| == |allResults|
    ensures forall i :: 0 <= i < |summary| ==>
      summary[i] == (allResults[i].0, SummaryOf(allResults[i].1))
  {
    summary := [];
    var i := 0;
    while i < |allResults|
      invariant 0 <= i <= |allResults|
      invariant |summary| == i
      invariant forall j :: 0 <= j < i ==> summary[j] == (allResults[j].0, SummaryOf(allResults[j].1))
    {
      var s := SummarizeOne(allResults[i].1);
      ghost var before := summary;
      summary := summary + [(allResults[i].0, s)];
      assert forall j :: 0 <= j < i ==> summary[j] == before[j];
      assert summary[i] == (allResults[i].0, SummaryOf(allResults[i].1));
      i := i + 1;
    }
  }

  // ---------------------------------------------------------------------------
  // Feature padding

  const FeatureCount: nat := 38

  /** `create_dummy_features`: an n x 38 matrix of zeros whose first
      min(columns, 38) columns are copied from the data frame. */
  method CreateDummyFeatures(df: seq<seq<real>>, columns: nat) returns (x: array2<real>)
    requires forall i :: 0 <= i < |df| ==> |df[i]| == columns
    ensures fresh(x)
    ensures x.Length0 == |df| && x.Length1 == FeatureCount
    ensures forall i, j :: 0 <= i < |df| && 0 <= j < FeatureCount ==>
      x[i, j] == (if j < Min(columns, FeatureCount) then df[i][j] else 0.0)
  {
    var n := |df|;
    var available := Min(columns, FeatureCount);
    x := new real[n, FeatureCount]((i, j) => 0.0);
    var i := 0;
    while i < n
      invariant 0 <= i <= n
      invariant forall r, c :: 0 <= r < n && 0 <= c < FeatureCount ==>
        x[r, c] == (if r < i && c < available then df[r][c] else 0.0)
    {
      var j := 0;
      while j < available
        invariant 0 <= j <= available
        invariant forall r, c :: 0 <= r < n && 0 <= c < FeatureCount ==>
          x[r, c] == (if (r < i && c < available) || (r == i && c < j) then df[r][c] else 0.0)
      {
        x[i, j] := df[i][j];
        j := j + 1;
      }
      i := i + 1;
    }
  }
}
