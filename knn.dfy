/** The majority-vote classifier of v0.1/analyzing/KNN.py.

    A KNN object holds the training rows and a weight for the healthy votes. predict(q, k)
    takes the rows of the k nearest neighbours and counts the ones labelled 1 (healthy) and the
    others. It answers 1 exactly when `weight * healthy > unhealthy`. pick_k sweeps k over
    0 .. k_range-1 for every validation sample in a 1-based inclusive range. It fetches the
    k_range nearest neighbours once, turns their labels into a 0/1 vote array, and then votes
    over each prefix of length k + 1. It scores each decision as a true or false positive or
    negative ("positive" meaning predicted failing, that is, label 0) and writes the four count
    vectors with results_to_file. */
module Knn {
  import opened Wrappers
  import opened Neighbours
  import Seqs
  import Sweep
  import KnnReport

  /** A KNN object: the rows file_to_dataset read, the weight, and the square root used by
      distance. */
  datatype Classifier = Classifier(dataset: seq<Row>, weight: real, root: Root)

  /** The state every KNN object reaches: file_to_dataset reads column 0 of every row. */
  predicate Loaded(c: Classifier)
  {
    Labelled(c.dataset)
  }

  /** KNN(..., weight): the constructor, with the CSV rows already read. An empty row raises
      IndexError when file_to_dataset reads its label. */
  function Load(rows: seq<Row>, weight: real, root: Root): (r: Result<Classifier>)
    ensures r.Ok? <==> Labelled(rows)
    ensures r.Ok? ==> Loaded(r.value) && r.value.dataset == rows && r.value.weight == weight
  {
    if forall i :: 0 <= i < |rows| ==> |rows[i]| > 0 then Ok(Classifier(rows, weight, root)) else Err(IndexError)
  }

  /** `1 if n_sample[0] == 1 else 0`. */
  function VoteOf(row: Row): int
    requires |row| > 0
  {
    if row[0] == 1.0 then 1 else 0
  }

  function VotesOf(rows: seq<Row>): seq<int>
    requires Labelled(rows)
  {
    seq(|rows|, i requires 0 <= i < |rows| => VoteOf(rows[i]))
  }

  /** The number of votes that count as healthy (`vote == 1`). */
  function Ayes(vs: seq<int>): nat
    decreases |vs|
  {
    if vs == [] then 0 else Ayes(vs[..|vs| - 1]) + (if vs[|vs| - 1] == 1 then 1 else 0)
  }

  /** The number of votes that count as unhealthy (every other vote). */
  function Nays(vs: seq<int>): nat
    decreases |vs|
  {
    if vs == [] then 0 else Nays(vs[..|vs| - 1]) + (if vs[|vs| - 1] == 1 then 0 else 1)
  }

  /** Every vote is counted exactly once. */
  lemma {:induction false} AyesNays(vs: seq<int>)
    ensures Ayes(vs) + Nays(vs) == |vs|
    decreases |vs|
  {
    if vs != [] {
      AyesNays(vs[..|vs| - 1]);
    }
  }

  lemma CountStep(vs: seq<int>, i: nat)
    requires i < |vs|
    ensures Ayes(vs[..i + 1]) == Ayes(vs[..i]) + (if vs[i] == 1 then 1 else 0)
    ensures Nays(vs[..i + 1]) == Nays(vs[..i]) + (if vs[i] == 1 then 0 else 1)
  {
    assert vs[..i + 1][..i] == vs[..i];
  }

  /** `weight * n` for a count n, as n additions of the weight. */
  function Weighted(weight: real, n: nat): real
    decreases n
  {
    if n == 0 then 0.0 else Weighted(weight, n - 1) + weight
  }

  lemma {:induction false} WeightedIsProduct(weight: real, n: nat)
    ensures Weighted(weight, n) == weight * (n as real)
    decreases n
  {
    if n > 0 {
      WeightedIsProduct(weight, n - 1);
      assert weight * (n as real) == weight * ((n - 1) as real) + weight;
    }
  }

  /** `1 if weight * healthy_sum > unhealthy_sum else 0`. */
  function Decide(weight: real, healthy: nat, unhealthy: nat): (d: int)
    ensures d == 0 || d == 1
  {
    if Weighted(weight, healthy) > unhealthy as real then 1 else 0
  }

  /** The decision is 1 exactly when the weighted healthy count is larger. */
  lemma DecideMeans(weight: real, healthy: nat, unhealthy: nat)
    ensures Decide(weight, healthy, unhealthy) == 1 <==> weight * (healthy as real) > unhealthy as real
  {
    WeightedIsProduct(weight, healthy);
  }

  /** `(self.weight * healthy_sum) > unhealthy_sum`, the comparison predict and pick_k make. */
  method Outweighs(weight: real, healthy: nat, unhealthy: nat) returns (b: bool)
    ensures b <==> Decide(weight, healthy, unhealthy) == 1
  {
    WeightedIsProduct(weight, healthy);
    b := weight * (healthy as real) > unhealthy as real;
  }

  function Verdict(weight: real, vs: seq<int>): int
  {
    Decide(weight, Ayes(vs), Nays(vs))
  }

  /** With the default weight 1 a tie goes to 0 (unhealthy); only a strict majority of healthy
      votes gives 1. */
  lemma {:induction false} DefaultWeight(vs: seq<int>)
    ensures Verdict(1.0, vs) == 1 <==> 2 * Ayes(vs) > |vs|
  {
    AyesNays(vs);
    WeightedIsProduct(1.0, Ayes(vs));
  }

  /** The rows of the neighbours, in ranking order. */
  function RowsOf(ns: seq<Neighbour>): seq<Row>
  {
    seq(|ns|, i requires 0 <= i < |ns| => ns[i].row)
  }

  /** get_nn(q, k): the rows of the first k entries of the ranking, or the fault get_nn raises. */
  function NearestRows(c: Classifier, q: Row, k: int): (r: Result<seq<Row>>)
    ensures r.Ok? <==> AllFit(q, c.dataset) && c.dataset != [] && k <= |c.dataset|
    ensures r.Ok? ==> |r.value| == Seqs.Clamp(k)
    ensures r.Ok? ==> forall i :: 0 <= i < |r.value| ==> r.value[i] in c.dataset
    ensures r.Ok? && Loaded(c) ==> Labelled(r.value)
  {
    match Nearest(c.root, c.dataset, q, k)
    case Err(f) => Err(f)
    case Ok(nn) =>
      NearestMembers(c.root, c.dataset, q, k);
      Ok(RowsOf(nn))
  }

  /** NearestRows in terms of the ranking get_nn's first loop builds. */
  lemma RankingCases(c: Classifier, q: Row, k: int)
    ensures match Ranking(c.root, c.dataset, q)
      case Err(f) => NearestRows(c, q, k) == Err(f)
      case Ok(all) =>
        |all| == |c.dataset| &&
        NearestRows(c, q, k) == if c.dataset == [] then Err(UnboundLocalError)
          else if k > |all| then Err(IndexError) else Ok(RowsOf(all[..Seqs.Clamp(k)]))
  {
    if AllFit(q, c.dataset) {
      assert |Pairs(c.root, q, c.dataset)| == |c.dataset|;
    }
  }

  lemma RowsOfPrefix(ns: seq<Neighbour>, k: nat)
    requires k <= |ns|
    ensures RowsOf(ns[..k]) == RowsOf(ns)[..k]
  {
  }

  lemma VotesOfPrefix(rows: seq<Row>, k: nat)
    requires Labelled(rows) && k <= |rows|
    ensures Labelled(rows[..k]) && VotesOf(rows[..k]) == VotesOf(rows)[..k]
  {
  }

  /** The neighbour rows for a smaller k are a prefix of those for a larger one. */
  lemma NearestRowsPrefix(c: Classifier, q: Row, k: nat, m: nat)
    requires k <= m && NearestRows(c, q, m).Ok?
    ensures NearestRows(c, q, k) == Ok(NearestRows(c, q, m).value[..k])
  {
    NearestPrefix(c.root, c.dataset, q, k, m);
    RowsOfPrefix(Nearest(c.root, c.dataset, q, m).value, k);
  }

  /** get_nn as written: rank the dataset, then append the rows of the first k entries. */
  method GetNN(c: Classifier, q: Row, k: int) returns (r: Result<seq<Row>>)
    ensures r == NearestRows(c, q, k)
  {
    var ranking := RankAll(c.root, c.dataset, q);
    RankingCases(c, q, k);
    if ranking.Err? {
      return Err(ranking.fault);
    }
    if c.dataset == [] {
      return Err(UnboundLocalError);
    }
    var distances := ranking.value;
    var nn: seq<Row> := [];
    for i := 0 to Seqs.Clamp(k)
      invariant i <= |distances| && |nn| == i
      invariant forall j :: 0 <= j < i ==> nn[j] == distances[j].row
    {
      if i >= |distances| {
        return Err(IndexError);
      }
      nn := nn + [distances[i].row];
    }
    assert nn == RowsOf(distances[..Seqs.Clamp(k)]);
    return Ok(nn);
  }

  /** predict(q, k): 1 or 0, or the fault get_nn raises. A neighbour without a label column
      would raise IndexError; a loaded classifier has none. */
  function Prediction(c: Classifier, q: Row, k: int): (r: Result<int>)
    ensures r.Ok? ==> r.value == 0 || r.value == 1
    ensures Loaded(c) ==> (r.Ok? <==> NearestRows(c, q, k).Ok?)
  {
    match NearestRows(c, q, k)
    case Err(f) => Err(f)
    case Ok(nn) => if Labelled(nn) then Ok(Verdict(c.weight, VotesOf(nn))) else Err(IndexError)
  }

  /** A prediction counts each of the k neighbours once, as healthy when its label is 1, and
      answers 1 exactly when the weighted healthy count beats the unhealthy count. */
  lemma PredictionVotes(c: Classifier, q: Row, k: int, healthy: nat, unhealthy: nat)
    requires Prediction(c, q, k).Ok?
    requires NearestRows(c, q, k).Ok? && Labelled(NearestRows(c, q, k).value)
    requires healthy == Ayes(VotesOf(NearestRows(c, q, k).value))
    requires unhealthy == Nays(VotesOf(NearestRows(c, q, k).value))
    ensures healthy + unhealthy == Seqs.Clamp(k)
    ensures Prediction(c, q, k).value == 1 <==> Weighted(c.weight, healthy) > unhealthy as real
  {
    AyesNays(VotesOf(NearestRows(c, q, k).value));
  }

  /** The counters after one more neighbour row. */
  lemma CountRows(rows: seq<Row>, i: nat)
    requires i < |rows| && Labelled(rows[..i + 1])
    ensures Labelled(rows[..i])
    ensures Ayes(VotesOf(rows[..i + 1])) == Ayes(VotesOf(rows[..i])) + VoteOf(rows[i])
    ensures Nays(VotesOf(rows[..i + 1])) == Nays(VotesOf(rows[..i])) + 1 - VoteOf(rows[i])
  {
    var vs := VotesOf(rows[..i + 1]);
    assert rows[..i + 1][..i] == rows[..i];
    assert vs[..i] == VotesOf(rows[..i]);
  }

  /** predict as written: fetch the neighbours, count their votes, compare. */
  method Predict(c: Classifier, q: Row, k: int) returns (r: Result<int>)
    ensures r == Prediction(c, q, k)
  {
    var nn := GetNN(c, q, k);
    if nn.Err? {
      return Err(nn.fault);
    }
    var counts := CountLabels(nn.value);
    if counts.Err? {
      return Err(counts.fault);
    }
    var (healthy, unhealthy) := counts.value;
    var guessedHealthy := Outweighs(c.weight, healthy, unhealthy);
    if guessedHealthy {
      return Ok(1);
    }
    return Ok(0);
  }

  /** predict's loop over the neighbour rows: the healthy and the other votes. A row without a
      label column raises IndexError. */
  method CountLabels(rows: seq<Row>) returns (r: Result<(nat, nat)>)
    ensures r.Ok? <==> Labelled(rows)
    ensures r.Ok? ==> r.value == (Ayes(VotesOf(rows)), Nays(VotesOf(rows)))
    ensures r.Err? ==> r.fault == IndexError
  {
    var healthy, unhealthy := 0, 0;
    for i := 0 to |rows|
      invariant Labelled(rows[..i])
      invariant healthy == Ayes(VotesOf(rows[..i])) && unhealthy == Nays(VotesOf(rows[..i]))
    {
      if |rows[i]| == 0 {
        return Err(IndexError);
      }
      assert Labelled(rows[..i + 1]);
      CountRows(rows, i);
      var vote := rows[i][0];
      if vote == 1.0 {
        healthy := healthy + 1;
      } else {
        unhealthy := unhealthy + 1;
      }
    }
    assert rows[..|rows|] == rows;
    return Ok((healthy, unhealthy));
  }

  /** How pick_k scores one decision against the sample's label. */
  function Outcome(decision: int, truth: real): KnnReport.Tally
  {
    if decision == 1 then (if truth == 1.0 then KnnReport.TN else KnnReport.FN)
    else (if truth == 0.0 then KnnReport.TP else KnnReport.FP)
  }

  /** pick_k's scores for one sample, one per k < k_range: the vote over the first k + 1
      neighbours. Reading the sample's label raises IndexError on an empty sample, once the
      k loop runs at all. */
  function Scores(weight: real, vs: seq<int>, sample: Row): (o: seq<KnnReport.Tally>)
    requires vs == [] || |sample| > 0
    ensures |o| == |vs|
  {
    seq(|vs|, k requires 0 <= k < |vs| => Outcome(Verdict(weight, vs[..k + 1]), sample[0]))
  }

  function Outcomes(c: Classifier, s: Row, kRange: int): (r: Result<seq<KnnReport.Tally>>)
    ensures r.Ok? ==> |r.value| == Seqs.Clamp(kRange)
    ensures Loaded(c) ==> (r.Ok? <==> NearestRows(c, s, kRange).Ok? && (kRange > 0 ==> |s| > 0))
  {
    match NearestRows(c, s, kRange)
    case Err(f) => Err(f)
    case Ok(nn) =>
      if !Labelled(nn) || (kRange > 0 && |s| == 0) then Err(IndexError)
      else Ok(Scores(c.weight, VotesOf(nn), s))
  }

  /** The scores of a sample whose neighbours are known. */
  lemma OutcomesOf(c: Classifier, s: Row, kRange: int, rows: seq<Row>, vs: seq<int>)
    requires NearestRows(c, s, kRange) == Ok(rows) && Labelled(rows) && vs == VotesOf(rows)
    requires kRange > 0 ==> |s| > 0
    ensures Outcomes(c, s, kRange).Ok? && |Outcomes(c, s, kRange).value| == |vs|
    ensures forall k :: 0 <= k < |vs| ==>
      Outcomes(c, s, kRange).value[k] == Outcome(Verdict(c.weight, vs[..k + 1]), s[0])
  {
    var o := Scores(c.weight, vs, s);
    assert Outcomes(c, s, kRange) == Ok(o);
    forall k | 0 <= k < |vs| ensures o[k] == Outcome(Verdict(c.weight, vs[..k + 1]), s[0]) {
    }
  }

  /** The prediction of a query whose neighbour rows are known. */
  lemma PredictionOf(c: Classifier, q: Row, k: int, rows: seq<Row>)
    requires NearestRows(c, q, k) == Ok(rows) && Labelled(rows)
    ensures Prediction(c, q, k) == Ok(Verdict(c.weight, VotesOf(rows)))
  {
  }

  /** The sweep's decision at index k is predict(s, k + 1). */
  lemma SweepIsPredict(c: Classifier, s: Row, kRange: int, k: nat)
    requires Outcomes(c, s, kRange).Ok? && k < Seqs.Clamp(kRange)
    ensures Prediction(c, s, k + 1).Ok?
    ensures Outcomes(c, s, kRange).value[k] == Outcome(Prediction(c, s, k + 1).value, s[0])
  {
    var nn := NearestRows(c, s, kRange).value;
    assert Labelled(nn) && (kRange > 0 ==> |s| > 0);
    var vs := VotesOf(nn);
    OutcomesOf(c, s, kRange, nn, vs);
    NearestRowsPrefix(c, s, k + 1, kRange);
    VotesOfPrefix(nn, k + 1);
    PredictionOf(c, s, k + 1, nn[..k + 1]);
  }

  /** What pick_k does with one sample: its scores, or the fault it raises. */
  type Scorer = Row -> Result<seq<KnnReport.Tally>>

  function ScoreWith(c: Classifier, kRange: int): Scorer
  {
    s => Outcomes(c, s, kRange)
  }

  /** One more sample's scores appended to the table, or its fault. */
  function Extend(table: seq<seq<KnnReport.Tally>>, o: Result<seq<KnnReport.Tally>>): Result<seq<seq<KnnReport.Tally>>>
  {
    match o
    case Err(f) => Err(f)
    case Ok(v) => Ok(table + [v])
  }

  /** The scores of the processed samples, in order, or the first fault. */
  function Scored(score: Scorer, samples: seq<Row>): (r: Result<seq<seq<KnnReport.Tally>>>)
    ensures r.Ok? ==> |r.value| == |samples|
    ensures r.Ok? ==> forall i :: 0 <= i < |samples| ==> score(samples[i]) == Ok(r.value[i])
    decreases |samples|
  {
    if samples == [] then Ok([])
    else
      match Scored(score, samples[..|samples| - 1])
      case Err(f) => Err(f)
      case Ok(t) => Extend(t, score(samples[|samples| - 1]))
  }

  /** How many rows of the table score t at index k. */
  function Count(table: seq<seq<KnnReport.Tally>>, k: nat, t: KnnReport.Tally): nat
    decreases |table|
  {
    if table == [] then 0
    else
      var n := |table| - 1;
      Count(table[..n], k, t) + (if k < |table[n]| && table[n][k] == t then 1 else 0)
  }

  /** The counter vector for t: entry k counts the samples scored t at k. */
  function Tallies(table: seq<seq<KnnReport.Tally>>, t: KnnReport.Tally, n: nat): seq<int>
  {
    seq(n, k requires 0 <= k < n => Count(table, k, t))
  }

  /** Exactly one of the four counters moves per sample and k. */
  lemma {:induction false} OneCounterEach(table: seq<seq<KnnReport.Tally>>, k: nat)
    requires forall i :: 0 <= i < |table| ==> k < |table[i]|
    ensures Count(table, k, KnnReport.TP) + Count(table, k, KnnReport.TN) +
      Count(table, k, KnnReport.FP) + Count(table, k, KnnReport.FN) == |table|
    decreases |table|
  {
    if table != [] {
      OneCounterEach(table[..|table| - 1], k);
    }
  }

  /** One sample's scores added to a counter vector. */
  function Bump(acc: seq<int>, o: seq<KnnReport.Tally>, t: KnnReport.Tally): seq<int>
  {
    seq(|acc|, k requires 0 <= k < |acc| => acc[k] + (if k < |o| && o[k] == t then 1 else 0))
  }

  predicate Bumped(before: seq<int>, after: seq<int>, o: seq<KnnReport.Tally>, t: KnnReport.Tally)
  {
    |after| == |before| == |o| && forall j :: 0 <= j < |o| ==> after[j] == before[j] + (if o[j] == t then 1 else 0)
  }

  lemma BumpAllFrom(before: Counters, after: Counters, o: seq<KnnReport.Tally>)
    requires Bumped(before.tp, after.tp, o, KnnReport.TP) && Bumped(before.tn, after.tn, o, KnnReport.TN)
    requires Bumped(before.fp, after.fp, o, KnnReport.FP) && Bumped(before.fn, after.fn, o, KnnReport.FN)
    ensures after == BumpAll(before, o)
  {
  }

  lemma TalliesSnoc(table: seq<seq<KnnReport.Tally>>, o: seq<KnnReport.Tally>, t: KnnReport.Tally, n: nat)
    ensures Tallies(table + [o], t, n) == Bump(Tallies(table, t, n), o, t)
  {
    assert (table + [o])[..|table|] == table;
  }

  /** The four counter vectors of pick_k. */
  datatype Counters = Counters(tp: seq<int>, tn: seq<int>, fp: seq<int>, fn: seq<int>)

  /** One sample's scores added to the four counter vectors. */
  function BumpAll(x: Counters, o: seq<KnnReport.Tally>): Counters
  {
    Counters(Bump(x.tp, o, KnnReport.TP), Bump(x.tn, o, KnnReport.TN), Bump(x.fp, o, KnnReport.FP), Bump(x.fn, o, KnnReport.FN))
  }

  /** The counters for the given samples, n entries each, or the first fault. */
  function TalliedOn(score: Scorer, samples: seq<Row>, n: nat): Result<Counters>
  {
    match Scored(score, samples)
    case Err(f) => Err(f)
    case Ok(t) => Ok(Counters(Tallies(t, KnnReport.TP, n), Tallies(t, KnnReport.TN, n),
      Tallies(t, KnnReport.FP, n), Tallies(t, KnnReport.FN, n)))
  }

  /** The counters after one more sample, or its fault. */
  function Credit(x: Result<Counters>, o: Result<seq<KnnReport.Tally>>): Result<Counters>
  {
    match x
    case Err(f) => Err(f)
    case Ok(v) => (match o case Err(f) => Err(f) case Ok(w) => Ok(BumpAll(v, w)))
  }

  lemma TalliedOnSnoc(score: Scorer, samples: seq<Row>, s: Row, n: nat)
    ensures TalliedOn(score, samples + [s], n) == Credit(TalliedOn(score, samples, n), score(s))
  {
    assert (samples + [s])[..|samples|] == samples;
    match Scored(score, samples)
    case Err(_) =>
    case Ok(t) =>
      if score(s).Ok? {
        var o := score(s).value;
        TalliesSnoc(t, o, KnnReport.TP, n);
        TalliesSnoc(t, o, KnnReport.TN, n);
        TalliesSnoc(t, o, KnnReport.FP, n);
        TalliesSnoc(t, o, KnnReport.FN, n);
      }
  }

  /** The counters once pick_k has scored every validation row in [start, end] (1-based), or
      the first fault. */
  function Tallied(c: Classifier, validation: seq<Row>, start: int, end: int, kRange: int): Result<Counters>
  {
    TalliedOn(ScoreWith(c, kRange), Sweep.Picked(validation, start - 1, end - 1), Seqs.Clamp(kRange))
  }

  /** pick_k(start, end, k_range) on the validation rows: the four rows it appends to the
      results file. */
  function PickKResult(c: Classifier, validation: seq<Row>, start: int, end: int, kRange: int): Result<seq<Sweep.ResultRow>>
  {
    match Tallied(c, validation, start, end, kRange)
    case Err(f) => Err(f)
    case Ok(x) => Ok(KnnReport.ResultsToFile(x.tp, x.tn, x.fp, x.fn, start, end))
  }

  /** At every k, TP + TN + FP + FN is the number of samples in the range, and each counter is
      the number of samples scored that way; the decision at k is predict(sample, k + 1). */
  lemma PickKConfusion(c: Classifier, validation: seq<Row>, start: int, end: int, kRange: int, k: nat)
    requires Tallied(c, validation, start, end, kRange).Ok? && k < Seqs.Clamp(kRange)
    ensures var x := Tallied(c, validation, start, end, kRange).value;
      |x.tp| == |x.tn| == |x.fp| == |x.fn| == Seqs.Clamp(kRange) &&
      x.tp[k] + x.tn[k] + x.fp[k] + x.fn[k] == |Sweep.Picked(validation, start - 1, end - 1)|
  {
    var picked := Sweep.Picked(validation, start - 1, end - 1);
    var t := Scored(ScoreWith(c, kRange), picked).value;
    forall i | 0 <= i < |t|
      ensures k < |t[i]|
    {
      assert Outcomes(c, picked[i], kRange) == Ok(t[i]);
    }
    OneCounterEach(t, k);
  }

  /** Before the loop: four vectors of n zeros. */
  lemma TalliedStart(score: Scorer, xs: seq<Row>, lo: int, hi: int, n: nat)
    ensures TalliedOn(score, Sweep.Picked(xs[..0], lo, hi), n) ==
      Ok(Counters(Sweep.Zeros(n), Sweep.Zeros(n), Sweep.Zeros(n), Sweep.Zeros(n)))
  {
    assert xs[..0] == [];
    assert Tallies([], KnnReport.TP, n) == Sweep.Zeros(n);
    assert Tallies([], KnnReport.TN, n) == Sweep.Zeros(n);
    assert Tallies([], KnnReport.FP, n) == Sweep.Zeros(n);
    assert Tallies([], KnnReport.FN, n) == Sweep.Zeros(n);
  }

  /** Whether predict(s, k + 1) scores t against the label of s. */
  predicate Matches(c: Classifier, s: Row, k: nat, t: KnnReport.Tally)
  {
    match Prediction(c, s, k + 1)
    case Err(_) => false
    case Ok(d) => |s| > 0 && Outcome(d, s[0]) == t
  }

  /** How many of the samples predict(s, k + 1) scores t. */
  function Matching(c: Classifier, samples: seq<Row>, k: nat, t: KnnReport.Tally): nat
    decreases |samples|
  {
    if samples == [] then 0
    else Matching(c, samples[..|samples| - 1], k, t) + (if Matches(c, samples[|samples| - 1], k, t) then 1 else 0)
  }

  lemma {:induction false} CountIsMatching(c: Classifier, samples: seq<Row>, kRange: int, k: nat, t: KnnReport.Tally)
    requires Scored(ScoreWith(c, kRange), samples).Ok? && k < Seqs.Clamp(kRange)
    ensures Count(Scored(ScoreWith(c, kRange), samples).value, k, t) == Matching(c, samples, k, t)
    decreases |samples|
  {
    if samples != [] {
      var n := |samples| - 1;
      var table := Scored(ScoreWith(c, kRange), samples).value;
      CountIsMatching(c, samples[..n], kRange, k, t);
      assert table[..n] == Scored(ScoreWith(c, kRange), samples[..n]).value;
      assert Outcomes(c, samples[n], kRange) == Ok(table[n]);
      SweepIsPredict(c, samples[n], kRange, k);
    }
  }

  /** Entry k of each counter pick_k writes is the number of samples in the range that
      predict(sample, k + 1) scores that way: the sweep measures exactly the classifier. */
  lemma PickKMeasuresPredict(c: Classifier, validation: seq<Row>, start: int, end: int, kRange: int, k: nat)
    requires Tallied(c, validation, start, end, kRange).Ok? && k < Seqs.Clamp(kRange)
    ensures var x := Tallied(c, validation, start, end, kRange).value;
      var picked := Sweep.Picked(validation, start - 1, end - 1);
      x.tp[k] == Matching(c, picked, k, KnnReport.TP) && x.tn[k] == Matching(c, picked, k, KnnReport.TN) &&
      x.fp[k] == Matching(c, picked, k, KnnReport.FP) && x.fn[k] == Matching(c, picked, k, KnnReport.FN)
  {
    var picked := Sweep.Picked(validation, start - 1, end - 1);
    CountIsMatching(c, picked, kRange, k, KnnReport.TP);
    CountIsMatching(c, picked, kRange, k, KnnReport.TN);
    CountIsMatching(c, picked, kRange, k, KnnReport.FP);
    CountIsMatching(c, picked, kRange, k, KnnReport.FN);
  }

  /** One round of pick_k's loop over the validation rows. */
  lemma TallyAdvance(score: Scorer, xs: seq<Row>, lo: int, hi: int, i: nat, n: nat, x: Counters)
    requires i < |xs| && TalliedOn(score, Sweep.Picked(xs[..i], lo, hi), n) == Ok(x)
    ensures !(lo <= i <= hi) ==> TalliedOn(score, Sweep.Picked(xs[..i + 1], lo, hi), n) == Ok(x)
    ensures lo <= i <= hi ==> TalliedOn(score, Sweep.Picked(xs[..i + 1], lo, hi), n) == Credit(Ok(x), score(xs[i]))
  {
    var p := Sweep.Picked(xs[..i], lo, hi);
    Sweep.PickedStep(xs, lo, hi, i);
    Seqs.AppendEmpty(p);
    TalliedOnSnoc(score, p, xs[i], n);
  }

  /** Once a sample has raised, the later samples are never reached. */
  lemma {:induction false} ScoredFails(score: Scorer, xs: seq<Row>, lo: int, hi: int, j: nat, m: nat)
    requires j <= m <= |xs| && Scored(score, Sweep.Picked(xs[..j], lo, hi)).Err?
    ensures Scored(score, Sweep.Picked(xs[..m], lo, hi)) == Scored(score, Sweep.Picked(xs[..j], lo, hi))
    decreases m - j
  {
    if m > j {
      ScoredFails(score, xs, lo, hi, j, m - 1);
      var p := Sweep.Picked(xs[..m - 1], lo, hi);
      Sweep.PickedStep(xs, lo, hi, m - 1);
      if lo <= m - 1 <= hi {
        ScoredSnocErr(score, p, xs[m - 1]);
      } else {
        Seqs.AppendEmpty(p);
      }
    }
  }

  lemma ScoredSnocErr(score: Scorer, p: seq<Row>, x: Row)
    requires Scored(score, p).Err?
    ensures Scored(score, p + [x]) == Scored(score, p)
  {
    assert (p + [x])[..|p|] == p;
  }

  lemma TallyFails(score: Scorer, xs: seq<Row>, lo: int, hi: int, j: nat, n: nat)
    requires j <= |xs| && TalliedOn(score, Sweep.Picked(xs[..j], lo, hi), n).Err?
    ensures TalliedOn(score, Sweep.Picked(xs, lo, hi), n) == TalliedOn(score, Sweep.Picked(xs[..j], lo, hi), n)
  {
    ScoredFails(score, xs, lo, hi, j, |xs|);
    assert xs[..|xs|] == xs;
  }

  /** pick_k as written: write the counters to the results file. */
  method PickK(c: Classifier, validation: seq<Row>, start: int, end: int, kRange: int)
      returns (r: Result<seq<Sweep.ResultRow>>)
    ensures r == PickKResult(c, validation, start, end, kRange)
  {
    var x := CountOutcomes(c, validation, start, end, kRange, ScoreWith(c, kRange));
    if x.Err? {
      return Err(x.fault);
    }
    return Ok(KnnReport.ResultsToFile(x.value.tp, x.value.tn, x.value.fp, x.value.fn, start, end));
  }

  /** pick_k's loop: four counter arrays of k_range zeros, updated in place for every
      validation row in the range. */
  method CountOutcomes(c: Classifier, validation: seq<Row>, start: int, end: int, kRange: int, ghost score: Scorer)
      returns (r: Result<Counters>)
    requires forall s :: score(s) == Outcomes(c, s, kRange)
    ensures r == TalliedOn(score, Sweep.Picked(validation, start - 1, end - 1), Seqs.Clamp(kRange))
  {
    var lo, hi := start - 1, end - 1;
    var n := Seqs.Clamp(kRange);
    var tp := new int[n](_ => 0);
    var tn := new int[n](_ => 0);
    var fp := new int[n](_ => 0);
    var fn := new int[n](_ => 0);
    TalliedStart(score, validation, lo, hi, n);
    assert tp[..] == Sweep.Zeros(n) && tn[..] == Sweep.Zeros(n) && fp[..] == Sweep.Zeros(n) && fn[..] == Sweep.Zeros(n);
    var i := 0;
    while i < |validation|
      invariant 0 <= i <= |validation|
      invariant TalliedOn(score, Sweep.Picked(validation[..i], lo, hi), n) == Ok(Counters(tp[..], tn[..], fp[..], fn[..]))
    {
      TallyAdvance(score, validation, lo, hi, i, n, Counters(tp[..], tn[..], fp[..], fn[..]));
      if i < lo {
        i := i + 1;
        continue;
      }
      if i > hi {
        break;
      }
      ghost var before := Counters(tp[..], tn[..], fp[..], fn[..]);
      var failure := ScoreSample(c, validation[i], kRange, tp, tn, fp, fn);
      if failure.Some? {
        TallyFails(score, validation, lo, hi, i + 1, n);
        return Err(failure.value);
      }
      BumpAllFrom(before, Counters(tp[..], tn[..], fp[..], fn[..]), Outcomes(c, validation[i], kRange).value);
      i := i + 1;
    }
    Sweep.PickedDone(validation, lo, hi, i);
    return Ok(Counters(tp[..], tn[..], fp[..], fn[..]));
  }

  /** The body of pick_k's loop for one sample: the neighbours, their vote array, and one
      counter increment per k. */
  method ScoreSample(c: Classifier, s: Row, kRange: int, tp: array<int>, tn: array<int>, fp: array<int>, fn: array<int>)
      returns (failure: Option<Fault>)
    requires tp.Length == Seqs.Clamp(kRange) && tn.Length == Seqs.Clamp(kRange)
    requires fp.Length == Seqs.Clamp(kRange) && fn.Length == Seqs.Clamp(kRange)
    requires tp != tn && tp != fp && tp != fn && tn != fp && tn != fn && fp != fn
    modifies tp, tn, fp, fn
    ensures failure.Some? <==> Outcomes(c, s, kRange).Err?
    ensures failure.Some? ==> failure.value == Outcomes(c, s, kRange).fault
    ensures failure.None? ==> Outcomes(c, s, kRange).Ok?
    ensures failure.None? ==> var o := Outcomes(c, s, kRange).value;
      Bumped(old(tp[..]), tp[..], o, KnnReport.TP) && Bumped(old(tn[..]), tn[..], o, KnnReport.TN) &&
      Bumped(old(fp[..]), fp[..], o, KnnReport.FP) && Bumped(old(fn[..]), fn[..], o, KnnReport.FN)
  {
    var nn := GetNN(c, s, kRange);
    if nn.Err? {
      return Some(nn.fault);
    }
    var rows := nn.value;
    var n := Seqs.Clamp(kRange);
    var votes, labelled := CastVotes(rows, n);
    if !labelled {
      return Some(IndexError);
    }
    if n > 0 && |s| == 0 {
      return Some(IndexError);
    }
    OutcomesOf(c, s, kRange, rows, votes[..]);
    Tabulate(c.weight, votes, s, tp, tn, fp, fn, Outcomes(c, s, kRange).value);
    return None;
  }

  /** pick_k's loop over k for one sample: at each k the vote over the first k + 1 neighbours
      is scored against the sample's label and the matching counter goes up by one. */
  method Tabulate(weight: real, votes: array<int>, sample: Row, tp: array<int>, tn: array<int>, fp: array<int>, fn: array<int>,
      ghost o: seq<KnnReport.Tally>)
    requires votes.Length == 0 || |sample| > 0
    requires |o| == votes.Length
    requires forall k :: 0 <= k < |o| ==> o[k] == Outcome(Verdict(weight, votes[..k + 1]), sample[0])
    requires tp.Length == votes.Length && tn.Length == votes.Length
    requires fp.Length == votes.Length && fn.Length == votes.Length
    requires tp != tn && tp != fp && tp != fn && tn != fp && tn != fn && fp != fn
    requires votes != tp && votes != tn && votes != fp && votes != fn
    modifies tp, tn, fp, fn
    ensures Bumped(old(tp[..]), tp[..], o, KnnReport.TP) && Bumped(old(tn[..]), tn[..], o, KnnReport.TN)
    ensures Bumped(old(fp[..]), fp[..], o, KnnReport.FP) && Bumped(old(fn[..]), fn[..], o, KnnReport.FN)
  {
    var n := votes.Length;
    PartialStart(tp[..], o, KnnReport.TP);
    PartialStart(tn[..], o, KnnReport.TN);
    PartialStart(fp[..], o, KnnReport.FP);
    PartialStart(fn[..], o, KnnReport.FN);
    for k := 0 to n
      invariant Partial(old(tp[..]), tp[..], o, KnnReport.TP, k) && Partial(old(tn[..]), tn[..], o, KnnReport.TN, k)
      invariant Partial(old(fp[..]), fp[..], o, KnnReport.FP, k) && Partial(old(fn[..]), fn[..], o, KnnReport.FN, k)
    {
      var healthy, unhealthy := CountVotes(votes, k);
      assert o[k] == Outcome(Decide(weight, healthy, unhealthy), sample[0]);
      var guessedHealthy := Outweighs(weight, healthy, unhealthy);
      ghost var before := Counters(tp[..], tn[..], fp[..], fn[..]);
      Record(guessedHealthy, sample[0], k, tp, tn, fp, fn);
      PartialStep(old(tp[..]), before.tp, tp[..], o, KnnReport.TP, k);
      PartialStep(old(tn[..]), before.tn, tn[..], o, KnnReport.TN, k);
      PartialStep(old(fp[..]), before.fp, fp[..], o, KnnReport.FP, k);
      PartialStep(old(fn[..]), before.fn, fn[..], o, KnnReport.FN, k);
    }
  }

  /** After the first k rounds of the loop over k: the entries below k are raised where the
      scores say t, the others are unchanged. */
  predicate Partial(before: seq<int>, after: seq<int>, o: seq<KnnReport.Tally>, t: KnnReport.Tally, k: nat)
  {
    |after| == |before| == |o| &&
    forall j :: 0 <= j < |o| ==> after[j] == before[j] + (if j < k && o[j] == t then 1 else 0)
  }

  lemma PartialStart(a: seq<int>, o: seq<KnnReport.Tally>, t: KnnReport.Tally)
    requires |a| == |o|
    ensures Partial(a, a, o, t, 0)
  {
  }

  lemma PartialStep(before: seq<int>, mid: seq<int>, after: seq<int>, o: seq<KnnReport.Tally>, t: KnnReport.Tally, k: nat)
    requires k < |o| && Partial(before, mid, o, t, k)
    requires after == mid[k := mid[k] + (if o[k] == t then 1 else 0)]
    ensures Partial(before, after, o, t, k + 1)
  {
  }

  /** The nested if of pick_k's loop over k: the counter that matches the decision and the
      label goes up by one at index k. */
  method Record(guessedHealthy: bool, truth: real, k: nat, tp: array<int>, tn: array<int>, fp: array<int>, fn: array<int>)
    requires k < tp.Length && k < tn.Length && k < fp.Length && k < fn.Length
    requires tp != tn && tp != fp && tp != fn && tn != fp && tn != fn && fp != fn
    modifies tp, tn, fp, fn
    ensures var t := Outcome(if guessedHealthy then 1 else 0, truth);
      tp[..] == old(tp[..])[k := old(tp[..])[k] + (if t == KnnReport.TP then 1 else 0)] &&
      tn[..] == old(tn[..])[k := old(tn[..])[k] + (if t == KnnReport.TN then 1 else 0)] &&
      fp[..] == old(fp[..])[k := old(fp[..])[k] + (if t == KnnReport.FP then 1 else 0)] &&
      fn[..] == old(fn[..])[k := old(fn[..])[k] + (if t == KnnReport.FN then 1 else 0)]
  {
    if guessedHealthy {
      if truth == 1.0 {
        tn[k] := tn[k] + 1;
      } else {
        fn[k] := fn[k] + 1;
      }
    } else {
      if truth == 0.0 {
        tp[k] := tp[k] + 1;
      } else {
        fp[k] := fp[k] + 1;
      }
    }
  }

  /** `votes = [0]*k_range`, then one 0/1 vote per neighbour row; a row without a label
      column raises IndexError. */
  method CastVotes(rows: seq<Row>, n: nat) returns (votes: array<int>, labelled: bool)
    requires |rows| == n
    ensures fresh(votes) && votes.Length == n
    ensures labelled <==> Labelled(rows)
    ensures labelled ==> votes[..] == VotesOf(rows)
  {
    votes := new int[n](_ => 0);
    for index := 0 to |rows|
      invariant forall j :: 0 <= j < index ==> |rows[j]| > 0 && votes[j] == VoteOf(rows[j])
    {
      if |rows[index]| == 0 {
        return votes, false;
      }
      var vote := rows[index][0];
      if vote == 1.0 {
        votes[index] := 1;
      } else {
        votes[index] := 0;
      }
    }
    return votes, true;
  }

  /** The while loop over j < k + 1 that counts the first k + 1 votes. */
  method CountVotes(votes: array<int>, k: nat) returns (healthy: nat, unhealthy: nat)
    requires k < votes.Length
    ensures healthy == Ayes(votes[..k + 1]) && unhealthy == Nays(votes[..k + 1])
  {
    ghost var vs := votes[..];
    healthy, unhealthy := 0, 0;
    var j := 0;
    while j < k + 1
      invariant j <= k + 1
      invariant healthy == Ayes(vs[..j]) && unhealthy == Nays(vs[..j])
    {
      CountStep(vs, j);
      var vote := votes[j];
      if vote == 1 {
        healthy := healthy + 1;
      } else {
        unhealthy := unhealthy + 1;
      }
      j := j + 1;
    }
  }

  /** read_k_file(start, end): the rows of the correct-count file summed into `[0]*400`. */
  method ReadKFile(rows: seq<Sweep.ResultRow>, start: int, end: int) returns (r: Result<Sweep.Choice>)
    ensures r == Sweep.KChoice(rows, start, end, 400)
  {
    r := Sweep.ReadKFile(rows, start, end, 400);
  }
}
