/** The inverse-distance classifier of v0.1/analyzing/WeightedKNN.py.

    predict(q, k) takes the k nearest neighbours with their distances. Each neighbour adds
    `1/d` to the sum of its label, where d is its distance, or 1 when the distance is 0. The
    label 1 counts as healthy and every other label as unhealthy. predict answers 1 exactly when
    the healthy sum is strictly larger, so a tie answers 0. pick_k fetches the 300 nearest
    neighbours of every validation sample in a 1-based inclusive range and copies their
    `(vote, dist)` pairs into an array. For every k < 300 it votes over the first k + 1 of
    them, and raises `correct_counts[k]` when the decision matches the sample's label. It
    appends one row, the range label followed by the 300 counts, to the correct-count file. */
module WeightedKnn {
  import opened Wrappers
  import opened Neighbours
  import Seqs
  import Sweep
  import Knn

  /** A WeightedKNN object: the rows file_to_dataset read and the square root used by
      distance. (Its `weight` attribute is never read.) */
  datatype Classifier = Classifier(dataset: seq<Row>, root: Root)

  /** The state every WeightedKNN object reaches: file_to_dataset reads column 0 of every row. */
  predicate Loaded(c: Classifier)
  {
    Labelled(c.dataset)
  }

  /** WeightedKNN(...): the constructor, with the CSV rows already read. An empty row raises
      IndexError when file_to_dataset reads its label. */
  function Load(rows: seq<Row>, root: Root): (r: Result<Classifier>)
    ensures r.Ok? <==> Labelled(rows)
    ensures r.Ok? ==> Loaded(r.value) && r.value.dataset == rows
    ensures r.Err? ==> r.fault == IndexError
  {
    if forall i :: 0 <= i < |rows| ==> |rows[i]| > 0 then Ok(Classifier(rows, root)) else Err(IndexError)
  }

  /** How many neighbours pick_k fetches, and how many values of k it tries. */
  const Width: nat := 300

  /** A neighbour's `(vote, dist)`: its label and its distance to the query. */
  datatype Ballot = Ballot(vote: real, dist: real)

  /** `(n_sample[0][0], n_sample[1])`. */
  function BallotOf(n: Neighbour): Ballot
    requires |n.row| > 0
  {
    Ballot(n.row[0], n.dist)
  }

  /** Every neighbour row has a label column. */
  predicate AllLabelled(nn: seq<Neighbour>)
  {
    forall i :: 0 <= i < |nn| ==> |nn[i].row| > 0
  }

  function BallotsOf(nn: seq<Neighbour>): (bs: seq<Ballot>)
    requires AllLabelled(nn)
    ensures |bs| == |nn|
  {
    seq(|nn|, i requires 0 <= i < |nn| => BallotOf(nn[i]))
  }

  /** The weight of a neighbour at distance d: `1/d`, with a distance of 0 counted as 1. It is
      positive for every distance a square root can give. */
  function Inv(d: real): (w: real)
    ensures d >= 0.0 ==> w > 0.0
  {
    if d == 0.0 then 1.0 else 1.0 / d
  }

  /** What one ballot adds to the healthy sum (healthy) or to the unhealthy sum (!healthy). */
  function Share(b: Ballot, healthy: bool): real
  {
    if (b.vote == 1.0) == healthy then Inv(b.dist) else 0.0
  }

  /** `healthy_sum` (healthy) or `unhealthy_sum` (!healthy) after the given ballots. */
  function Support(bs: seq<Ballot>, healthy: bool): real
    decreases |bs|
  {
    if bs == [] then 0.0 else Support(bs[..|bs| - 1], healthy) + Share(bs[|bs| - 1], healthy)
  }

  /** predict's answer on the given neighbours: 1 when the healthy sum is the larger one. */
  function Vote(bs: seq<Ballot>): (d: int)
    ensures d == 0 || d == 1
  {
    if Support(bs, true) > Support(bs, false) then 1 else 0
  }

  lemma SupportSnoc(bs: seq<Ballot>, b: Ballot, healthy: bool)
    ensures Support(bs + [b], healthy) == Support(bs, healthy) + Share(b, healthy)
  {
    assert (bs + [b])[..|bs|] == bs;
  }

  /** The sum of the weights of all the ballots. */
  function Strength(bs: seq<Ballot>): real
    decreases |bs|
  {
    if bs == [] then 0.0 else Strength(bs[..|bs| - 1]) + Inv(bs[|bs| - 1].dist)
  }

  /** Every neighbour adds its weight to exactly one of the two sums. */
  lemma {:induction false} SupportSplits(bs: seq<Ballot>)
    ensures Support(bs, true) + Support(bs, false) == Strength(bs)
    decreases |bs|
  {
    if bs != [] {
      SupportSplits(bs[..|bs| - 1]);
    }
  }

  /** Distances are never negative (they are square roots). */
  predicate NonNegative(bs: seq<Ballot>)
  {
    forall i :: 0 <= i < |bs| ==> bs[i].dist >= 0.0
  }

  /** Whether every ballot votes healthy (healthy) or every ballot votes unhealthy (!healthy). */
  predicate AllVote(bs: seq<Ballot>, healthy: bool)
  {
    forall i :: 0 <= i < |bs| ==> (bs[i].vote == 1.0) == healthy
  }

  /** With non-negative distances, a side that some ballot votes for has a positive sum, and a
      side that no ballot votes for has a zero sum. */
  lemma {:induction false} SupportSign(bs: seq<Ballot>, healthy: bool)
    requires NonNegative(bs)
    ensures Support(bs, healthy) >= 0.0
    ensures AllVote(bs, !healthy) ==> Support(bs, healthy) == 0.0
    ensures bs != [] && AllVote(bs, healthy) ==> Support(bs, healthy) > 0.0
    decreases |bs|
  {
    if bs != [] {
      var n := |bs| - 1;
      assert NonNegative(bs[..n]);
      assert AllVote(bs, healthy) ==> AllVote(bs[..n], healthy);
      assert AllVote(bs, !healthy) ==> AllVote(bs[..n], !healthy);
      SupportSign(bs[..n], healthy);
      assert Inv(bs[n].dist) > 0.0;
    }
  }

  /** A unanimous neighbourhood decides for its label; no neighbours at all is a tie, and a tie
      answers 0. */
  lemma Unanimous(bs: seq<Ballot>)
    requires NonNegative(bs)
    ensures bs != [] && AllVote(bs, true) ==> Vote(bs) == 1
    ensures AllVote(bs, false) ==> Vote(bs) == 0
  {
    SupportSign(bs, true);
    SupportSign(bs, false);
  }

  /** The ballots as the 0/1 votes of KNN.py. */
  function Tickets(bs: seq<Ballot>): (vs: seq<int>)
    ensures |vs| == |bs|
  {
    seq(|bs|, i requires 0 <= i < |bs| => if bs[i].vote == 1.0 then 1 else 0)
  }

  lemma {:induction false} EqualDistancesSupport(bs: seq<Ballot>, d: real)
    requires forall i :: 0 <= i < |bs| ==> bs[i].dist == d
    ensures Support(bs, true) == Knn.Weighted(Inv(d), Knn.Ayes(Tickets(bs)))
    ensures Support(bs, false) == Knn.Weighted(Inv(d), Knn.Nays(Tickets(bs)))
    decreases |bs|
  {
    if bs != [] {
      var n := |bs| - 1;
      var vs := Tickets(bs);
      assert Tickets(bs[..n]) == vs[..n];
      EqualDistancesSupport(bs[..n], d);
      Knn.CountStep(vs, n);
      assert vs[..n + 1] == vs;
    }
  }

  /** More copies of a positive weight add up to more. */
  lemma {:induction false} WeightedGrows(w: real, m: nat, n: nat)
    requires w > 0.0 && m <= n
    ensures Knn.Weighted(w, m) <= Knn.Weighted(w, n)
    ensures m < n ==> Knn.Weighted(w, m) < Knn.Weighted(w, n)
    decreases n
  {
    if m < n {
      WeightedGrows(w, m, n - 1);
    }
  }

  /** When all neighbours are equally far away, the weighted vote is the plain majority vote
      of KNN.py with its default weight 1. */
  lemma EqualDistancesIsMajority(bs: seq<Ballot>, d: real)
    requires d >= 0.0 && forall i :: 0 <= i < |bs| ==> bs[i].dist == d
    ensures Vote(bs) == Knn.Verdict(1.0, Tickets(bs))
  {
    EqualDistancesSupport(bs, d);
    var vs := Tickets(bs);
    var a, u := Knn.Ayes(vs), Knn.Nays(vs);
    if a <= u {
      WeightedGrows(Inv(d), a, u);
    } else {
      WeightedGrows(Inv(d), u, a);
    }
    Knn.WeightedIsProduct(1.0, a);
  }

  /** ms is ns with every distance multiplied by c, none of the original distances zero. */
  predicate Rescaled(ms: seq<Ballot>, ns: seq<Ballot>, c: real)
    decreases |ms|
  {
    |ms| == |ns| &&
    (ms == [] ||
     (Rescaled(ms[..|ms| - 1], ns[..|ms| - 1], c) && ScaledPair(ms[|ms| - 1], ns[|ms| - 1], c)))
  }

  predicate ScaledPair(m: Ballot, n: Ballot, c: real)
  {
    m.vote == n.vote && n.dist != 0.0 && m.dist == c * n.dist
  }

  lemma ShareScale(m: Ballot, n: Ballot, c: real, healthy: bool, x: real, y: real)
    requires c > 0.0 && m.vote == n.vote && n.dist != 0.0 && m.dist == c * n.dist
    requires x == Share(m, healthy) && y == Share(n, healthy)
    ensures x * c == y
  {
    if (n.vote == 1.0) == healthy {
      var d := n.dist;
      var e := m.dist;
      assert e * (1.0 / e) == 1.0;
      assert c * d * (1.0 / e) == 1.0;
      assert c * (1.0 / e) == 1.0 / d;
    }
  }

  lemma Combine(w: real, a: real, b: real, c: real, a0: real, b0: real)
    requires w == a + b && a * c == a0 && b * c == b0
    ensures w * c == a0 + b0
  {
  }

  /** A sum of per-ballot values, for any choice of value. */
  function Total(bs: seq<Ballot>, f: Ballot -> real): real
    decreases |bs|
  {
    if bs == [] then 0.0 else Total(bs[..|bs| - 1], f) + f(bs[|bs| - 1])
  }

  lemma {:induction false} SupportIsTotal(bs: seq<Ballot>, healthy: bool, f: Ballot -> real)
    requires forall b :: f(b) == Share(b, healthy)
    ensures Support(bs, healthy) == Total(bs, f)
    decreases |bs|
  {
    if bs != [] {
      SupportIsTotal(bs[..|bs| - 1], healthy, f);
    }
  }

  /** Each value of ms, times c, is the matching value of ns. */
  predicate Pairwise(ms: seq<Ballot>, ns: seq<Ballot>, f: Ballot -> real, c: real)
    requires |ms| == |ns|
    decreases |ms|
  {
    ms == [] || (Pairwise(ms[..|ms| - 1], ns[..|ms| - 1], f, c) && f(ms[|ms| - 1]) * c == f(ns[|ms| - 1]))
  }

  lemma {:induction false} TotalScaled(ms: seq<Ballot>, ns: seq<Ballot>, f: Ballot -> real, c: real)
    requires |ms| == |ns| && Pairwise(ms, ns, f, c)
    ensures Total(ms, f) * c == Total(ns, f)
    decreases |ms|
  {
    if ms != [] {
      var n := |ms| - 1;
      TotalScaled(ms[..n], ns[..n], f, c);
      Combine(Total(ms, f), Total(ms[..n], f), f(ms[n]), c, Total(ns[..n], f), f(ns[n]));
    } else {
      assert Total(ms, f) * c == 0.0 * c;
    }
  }

  lemma {:induction false} SharesScaled(ms: seq<Ballot>, ns: seq<Ballot>, c: real, f: Ballot -> real, healthy: bool)
    requires c > 0.0 && Rescaled(ms, ns, c)
    requires forall b :: f(b) == Share(b, healthy)
    ensures Pairwise(ms, ns, f, c)
    decreases |ms|
  {
    if ms != [] {
      var n := |ms| - 1;
      SharesScaled(ms[..n], ns[..n], c, f, healthy);
      ShareScale(ms[n], ns[n], c, healthy, f(ms[n]), f(ns[n]));
    }
  }

  function HealthyShare(b: Ballot): real
  {
    Share(b, true)
  }

  function UnhealthyShare(b: Ballot): real
  {
    Share(b, false)
  }

  /** Multiplying both sides by the same positive number keeps their order. */
  lemma CompareScaled(x: real, y: real, c: real, x1: real, y1: real)
    requires c > 0.0 && x * c == x1 && y * c == y1
    ensures x > y <==> x1 > y1
  {
    assert x1 - y1 == (x - y) * c;
  }

  /** Multiplying every distance by the same c > 0, none of them zero, leaves the answer
      unchanged. */
  lemma ScaleInvariant(ms: seq<Ballot>, ns: seq<Ballot>, c: real)
    requires c > 0.0 && Rescaled(ms, ns, c)
    ensures Vote(ms) == Vote(ns)
  {
    TotalsCompare(ms, ns, c);
    VoteByTotals(ms);
    VoteByTotals(ns);
  }

  /** Scaling every distance by c scales both sums by 1/c, so their order stays. */
  lemma TotalsCompare(ms: seq<Ballot>, ns: seq<Ballot>, c: real)
    requires c > 0.0 && Rescaled(ms, ns, c)
    ensures Total(ms, HealthyShare) > Total(ms, UnhealthyShare) <==> Total(ns, HealthyShare) > Total(ns, UnhealthyShare)
  {
    SharesScaled(ms, ns, c, HealthyShare, true);
    SharesScaled(ms, ns, c, UnhealthyShare, false);
    TotalsOrder(ms, ns, HealthyShare, UnhealthyShare, c);
  }

  lemma TotalsOrder(ms: seq<Ballot>, ns: seq<Ballot>, f: Ballot -> real, g: Ballot -> real, c: real)
    requires c > 0.0 && |ms| == |ns| && Pairwise(ms, ns, f, c) && Pairwise(ms, ns, g, c)
    ensures Total(ms, f) > Total(ms, g) <==> Total(ns, f) > Total(ns, g)
  {
    TotalScaled(ms, ns, f, c);
    TotalScaled(ms, ns, g, c);
    CompareScaled(Total(ms, f), Total(ms, g), c, Total(ns, f), Total(ns, g));
  }

  lemma VoteByTotals(bs: seq<Ballot>)
    ensures Vote(bs) == if Total(bs, HealthyShare) > Total(bs, UnhealthyShare) then 1 else 0
  {
    SupportIsTotal(bs, true, HealthyShare);
    SupportIsTotal(bs, false, UnhealthyShare);
  }

  /** predict(q, k): 1 or 0, or the fault get_nn raises. A neighbour without a label column
      would raise IndexError; a loaded classifier has none. */
  function Prediction(c: Classifier, q: Row, k: int): (r: Result<int>)
    ensures r.Ok? ==> r.value == 0 || r.value == 1
    ensures r.Ok? ==> Nearest(c.root, c.dataset, q, k).Ok?
  {
    match Nearest(c.root, c.dataset, q, k)
    case Err(f) => Err(f)
    case Ok(nn) => if AllLabelled(nn) then Ok(Vote(BallotsOf(nn))) else Err(IndexError)
  }

  /** For a loaded classifier, predict fails exactly when get_nn does. */
  lemma PredictionLoaded(c: Classifier, q: Row, k: int)
    requires Loaded(c)
    ensures Prediction(c, q, k).Ok? <==> Nearest(c.root, c.dataset, q, k).Ok?
  {
    if Nearest(c.root, c.dataset, q, k).Ok? {
      NearestLabelled(c.root, c.dataset, q, k);
    }
  }

  /** The neighbours of a successful prediction, as ballots, and what the answer means. */
  lemma PredictionSums(c: Classifier, q: Row, k: int, healthy: real, unhealthy: real)
    requires Nearest(c.root, c.dataset, q, k).Ok? && AllLabelled(Nearest(c.root, c.dataset, q, k).value)
    requires healthy == Support(BallotsOf(Nearest(c.root, c.dataset, q, k).value), true)
    requires unhealthy == Support(BallotsOf(Nearest(c.root, c.dataset, q, k).value), false)
    ensures Prediction(c, q, k).Ok?
    ensures Prediction(c, q, k).value == 1 <==> healthy > unhealthy
    ensures healthy + unhealthy == Strength(BallotsOf(Nearest(c.root, c.dataset, q, k).value))
  {
    SupportSplits(BallotsOf(Nearest(c.root, c.dataset, q, k).value));
  }

  lemma BallotsStep(nn: seq<Neighbour>, i: nat)
    requires i < |nn| && AllLabelled(nn[..i + 1])
    ensures AllLabelled(nn[..i])
    ensures BallotsOf(nn[..i + 1]) == BallotsOf(nn[..i]) + [BallotOf(nn[i])]
  {
    assert nn[..i + 1][..i] == nn[..i];
  }

  lemma BallotsPrefix(nn: seq<Neighbour>, k: nat)
    requires AllLabelled(nn) && k <= |nn|
    ensures AllLabelled(nn[..k]) && BallotsOf(nn[..k]) == BallotsOf(nn)[..k]
  {
  }

  /** predict as written: fetch the neighbours, add up their weights, compare. */
  method Predict(c: Classifier, q: Row, k: int) returns (r: Result<int>)
    ensures r == Prediction(c, q, k)
  {
    var nn := GetNN(c.root, c.dataset, q, k);
    if nn.Err? {
      return Err(nn.fault);
    }
    var sums := Weigh(nn.value);
    if sums.Err? {
      return Err(sums.fault);
    }
    var (healthy, unhealthy) := sums.value;
    if healthy > unhealthy {
      return Ok(1);
    }
    return Ok(0);
  }

  /** predict's loop over the neighbours: the healthy and the unhealthy sums. A row without a
      label column raises IndexError. */
  method Weigh(nn: seq<Neighbour>) returns (r: Result<(real, real)>)
    ensures r.Ok? <==> AllLabelled(nn)
    ensures r.Ok? ==> r.value == (Support(BallotsOf(nn), true), Support(BallotsOf(nn), false))
    ensures r.Err? ==> r.fault == IndexError
  {
    var healthy, unhealthy := 0.0, 0.0;
    for i := 0 to |nn|
      invariant AllLabelled(nn[..i])
      invariant healthy == Support(BallotsOf(nn[..i]), true) && unhealthy == Support(BallotsOf(nn[..i]), false)
    {
      if |nn[i].row| == 0 {
        return Err(IndexError);
      }
      assert AllLabelled(nn[..i + 1]);
      BallotsStep(nn, i);
      SupportSnoc(BallotsOf(nn[..i]), BallotOf(nn[i]), true);
      SupportSnoc(BallotsOf(nn[..i]), BallotOf(nn[i]), false);
      var vote := nn[i].row[0];
      var dist := nn[i].dist;
      if dist == 0.0 {
        dist := 1.0;
      }
      if vote == 1.0 {
        healthy := healthy + 1.0 / dist;
      } else {
        unhealthy := unhealthy + 1.0 / dist;
      }
    }
    assert nn[..|nn|] == nn;
    return Ok((healthy, unhealthy));
  }

  /** Whether pick_k counts a decision as correct: 1 against a label of 1, 0 against a label
      of 0. A label of any other value is never matched. */
  function Right(decision: int, truth: real): bool
  {
    if decision == 1 then truth == 1.0 else truth == 0.0
  }

  /** Which k < |bs| pick_k counts as correct for a sample with the given ballots. */
  function Marks(bs: seq<Ballot>, sample: Row): (m: seq<bool>)
    requires bs == [] || |sample| > 0
    ensures |m| == |bs|
  {
    seq(|bs|, k requires 0 <= k < |bs| => Right(Vote(bs[..k + 1]), sample[0]))
  }

  /** pick_k's marks for one sample, one per k < 300, or the fault that sample raises: get_nn's,
      an unlabelled neighbour's, or an empty sample's (its label is read at k = 0). */
  function Judgement(c: Classifier, s: Row): (r: Result<seq<bool>>)
    ensures r.Ok? ==> |r.value| == Width
    ensures r.Ok? ==> Nearest(c.root, c.dataset, s, Width).Ok? && |s| > 0
  {
    match Nearest(c.root, c.dataset, s, Width)
    case Err(f) => Err(f)
    case Ok(nn) => if !AllLabelled(nn) || |s| == 0 then Err(IndexError) else Ok(Marks(BallotsOf(nn), s))
  }

  /** pick_k needs at least 300 training rows: with fewer, every sample raises; a loaded
      classifier with enough rows, all of the query's width, always gets its marks. */
  lemma PickKNeedsRows(c: Classifier, s: Row)
    ensures Judgement(c, s).Ok? ==> |c.dataset| >= Width
    ensures Loaded(c) && AllFit(s, c.dataset) && |c.dataset| >= Width && |s| > 0 ==> Judgement(c, s).Ok?
  {
    if Loaded(c) && AllFit(s, c.dataset) && |c.dataset| >= Width {
      NearestLabelled(c.root, c.dataset, s, Width);
    }
  }

  /** The marks of a sample whose neighbours are known. */
  lemma JudgementOf(c: Classifier, s: Row, nn: seq<Neighbour>, bs: seq<Ballot>)
    requires Nearest(c.root, c.dataset, s, Width) == Ok(nn) && AllLabelled(nn) && bs == BallotsOf(nn) && |s| > 0
    ensures Judgement(c, s).Ok? && |Judgement(c, s).value| == |bs|
    ensures forall k :: 0 <= k < |bs| ==> Judgement(c, s).value[k] == Right(Vote(bs[..k + 1]), s[0])
  {
  }

  /** The sweep's decision at index k is predict(s, k + 1). */
  lemma SweepIsPredict(c: Classifier, s: Row, k: nat)
    requires Judgement(c, s).Ok? && k < Width
    ensures Prediction(c, s, k + 1).Ok?
    ensures Judgement(c, s).value[k] == Right(Prediction(c, s, k + 1).value, s[0])
  {
    var nn := Nearest(c.root, c.dataset, s, Width).value;
    NearestPrefix(c.root, c.dataset, s, k + 1, Width);
    BallotsPrefix(nn, k + 1);
  }

  /** What pick_k does with one sample: its marks, or the fault it raises. */
  type Judge = Row -> Result<seq<bool>>

  function JudgeWith(c: Classifier): Judge
  {
    s => Judgement(c, s)
  }

  /** One more sample's marks appended to the table, or its fault. */
  function Append(table: seq<seq<bool>>, m: Result<seq<bool>>): Result<seq<seq<bool>>>
  {
    match m
    case Err(f) => Err(f)
    case Ok(v) => Ok(table + [v])
  }

  /** The marks of the processed samples, in order, or the first fault. */
  function Judged(judge: Judge, samples: seq<Row>): (r: Result<seq<seq<bool>>>)
    ensures r.Ok? ==> |r.value| == |samples|
    ensures r.Ok? ==> forall i :: 0 <= i < |samples| ==> judge(samples[i]) == Ok(r.value[i])
    decreases |samples|
  {
    if samples == [] then Ok([])
    else
      match Judged(judge, samples[..|samples| - 1])
      case Err(f) => Err(f)
      case Ok(t) => Append(t, judge(samples[|samples| - 1]))
  }

  /** How many rows of the table are marked at index k. */
  function Hits(table: seq<seq<bool>>, k: nat): nat
    decreases |table|
  {
    if table == [] then 0
    else
      var n := |table| - 1;
      Hits(table[..n], k) + (if k < |table[n]| && table[n][k] then 1 else 0)
  }

  /** No count exceeds the number of samples. */
  lemma {:induction false} HitsBounded(table: seq<seq<bool>>, k: nat)
    ensures Hits(table, k) <= |table|
    decreases |table|
  {
    if table != [] {
      HitsBounded(table[..|table| - 1], k);
    }
  }

  /** `correct_counts`: entry k counts the samples marked at k. */
  function Corrects(table: seq<seq<bool>>, n: nat): seq<int>
  {
    seq(n, k requires 0 <= k < n => Hits(table, k))
  }

  /** One sample's marks added to the counts. */
  function Raise(acc: seq<int>, m: seq<bool>): seq<int>
  {
    seq(|acc|, k requires 0 <= k < |acc| => acc[k] + (if k < |m| && m[k] then 1 else 0))
  }

  predicate Raised(before: seq<int>, after: seq<int>, m: seq<bool>)
  {
    |after| == |before| == |m| && forall j :: 0 <= j < |m| ==> after[j] == before[j] + (if m[j] then 1 else 0)
  }

  lemma RaisedIsRaise(before: seq<int>, after: seq<int>, m: seq<bool>)
    requires Raised(before, after, m)
    ensures after == Raise(before, m)
  {
  }

  lemma CorrectsSnoc(table: seq<seq<bool>>, m: seq<bool>, n: nat)
    ensures Corrects(table + [m], n) == Raise(Corrects(table, n), m)
  {
    assert (table + [m])[..|table|] == table;
  }

  /** The counts for the given samples, or the first fault. */
  function CorrectOn(judge: Judge, samples: seq<Row>): Result<seq<int>>
  {
    match Judged(judge, samples)
    case Err(f) => Err(f)
    case Ok(t) => Ok(Corrects(t, Width))
  }

  /** The counts after one more sample, or its fault. */
  function Credit(x: Result<seq<int>>, m: Result<seq<bool>>): Result<seq<int>>
  {
    match x
    case Err(f) => Err(f)
    case Ok(v) => (match m case Err(f) => Err(f) case Ok(w) => Ok(Raise(v, w)))
  }

  lemma CorrectOnSnoc(judge: Judge, samples: seq<Row>, s: Row)
    ensures CorrectOn(judge, samples + [s]) == Credit(CorrectOn(judge, samples), judge(s))
  {
    assert (samples + [s])[..|samples|] == samples;
    match Judged(judge, samples)
    case Err(_) =>
    case Ok(t) =>
      if judge(s).Ok? {
        CorrectsSnoc(t, judge(s).value, Width);
      }
  }

  /** The counts once pick_k has judged every validation row in [start, end] (1-based), or the
      first fault. */
  function CorrectCounts(c: Classifier, validation: seq<Row>, start: int, end: int): Result<seq<int>>
  {
    CorrectOn(JudgeWith(c), Sweep.Picked(validation, start - 1, end - 1))
  }

  /** pick_k(start, end, validation_set) on the validation rows: the row it appends to the
      correct-count file. */
  function PickKResult(c: Classifier, validation: seq<Row>, start: int, end: int): Result<Sweep.ResultRow>
  {
    match CorrectCounts(c, validation, start, end)
    case Err(f) => Err(f)
    case Ok(counts) => Ok(Sweep.ResultRow(Sweep.RangeLabel(start, end), counts))
  }

  /** Whether predict(s, k + 1) is counted as correct for s. */
  predicate Hit(c: Classifier, s: Row, k: nat)
  {
    match Prediction(c, s, k + 1)
    case Err(_) => false
    case Ok(d) => |s| > 0 && Right(d, s[0])
  }

  /** How many of the samples predict(s, k + 1) gets right. */
  function Hitting(c: Classifier, samples: seq<Row>, k: nat): nat
    decreases |samples|
  {
    if samples == [] then 0
    else Hitting(c, samples[..|samples| - 1], k) + (if Hit(c, samples[|samples| - 1], k) then 1 else 0)
  }

  lemma {:induction false} HitsIsHitting(c: Classifier, samples: seq<Row>, k: nat)
    requires Judged(JudgeWith(c), samples).Ok? && k < Width
    ensures Hits(Judged(JudgeWith(c), samples).value, k) == Hitting(c, samples, k)
    decreases |samples|
  {
    if samples != [] {
      var n := |samples| - 1;
      var table := Judged(JudgeWith(c), samples).value;
      HitsIsHitting(c, samples[..n], k);
      assert table[..n] == Judged(JudgeWith(c), samples[..n]).value;
      assert Judgement(c, samples[n]) == Ok(table[n]);
      SweepIsPredict(c, samples[n], k);
    }
  }

  /** Entry k of the row pick_k writes is the number of samples in the range that
      predict(sample, k + 1) classifies correctly, so it never exceeds the number of samples. */
  lemma PickKMeasuresPredict(c: Classifier, validation: seq<Row>, start: int, end: int, k: nat)
    requires CorrectCounts(c, validation, start, end).Ok? && k < Width
    ensures var counts := CorrectCounts(c, validation, start, end).value;
      var picked := Sweep.Picked(validation, start - 1, end - 1);
      |counts| == Width && counts[k] == Hitting(c, picked, k) && 0 <= counts[k] <= |picked|
  {
    var picked := Sweep.Picked(validation, start - 1, end - 1);
    HitsIsHitting(c, picked, k);
    HitsBounded(Judged(JudgeWith(c), picked).value, k);
  }

  /** One more sample raises each count by at most one, and raises count k exactly when
      predict(sample, k + 1) is right. */
  lemma PickKStep(c: Classifier, samples: seq<Row>, s: Row, k: nat)
    requires CorrectOn(JudgeWith(c), samples + [s]).Ok? && k < Width
    ensures CorrectOn(JudgeWith(c), samples).Ok?
    ensures var before := CorrectOn(JudgeWith(c), samples).value;
      var after := CorrectOn(JudgeWith(c), samples + [s]).value;
      |before| == |after| == Width &&
      (after[k] == before[k] || after[k] == before[k] + 1) &&
      (after[k] == before[k] + 1 <==> Hit(c, s, k))
  {
    CorrectOnSnoc(JudgeWith(c), samples, s);
    SweepIsPredict(c, s, k);
  }

  /** Before the loop: 300 zeros. */
  lemma CorrectStart(judge: Judge, xs: seq<Row>, lo: int, hi: int)
    ensures CorrectOn(judge, Sweep.Picked(xs[..0], lo, hi)) == Ok(Sweep.Zeros(Width))
  {
    assert xs[..0] == [];
    assert Corrects([], Width) == Sweep.Zeros(Width);
  }

  /** One round of pick_k's loop over the validation rows. */
  lemma CorrectAdvance(judge: Judge, xs: seq<Row>, lo: int, hi: int, i: nat, x: seq<int>)
    requires i < |xs| && CorrectOn(judge, Sweep.Picked(xs[..i], lo, hi)) == Ok(x)
    ensures !(lo <= i <= hi) ==> CorrectOn(judge, Sweep.Picked(xs[..i + 1], lo, hi)) == Ok(x)
    ensures lo <= i <= hi ==> CorrectOn(judge, Sweep.Picked(xs[..i + 1], lo, hi)) == Credit(Ok(x), judge(xs[i]))
  {
    var p := Sweep.Picked(xs[..i], lo, hi);
    Sweep.PickedStep(xs, lo, hi, i);
    Seqs.AppendEmpty(p);
    CorrectOnSnoc(judge, p, xs[i]);
  }

  /** Once a sample has raised, the later samples are never reached. */
  lemma {:induction false} JudgedFails(judge: Judge, xs: seq<Row>, lo: int, hi: int, j: nat, m: nat)
    requires j <= m <= |xs| && Judged(judge, Sweep.Picked(xs[..j], lo, hi)).Err?
    ensures Judged(judge, Sweep.Picked(xs[..m], lo, hi)) == Judged(judge, Sweep.Picked(xs[..j], lo, hi))
    decreases m - j
  {
    if m > j {
      JudgedFails(judge, xs, lo, hi, j, m - 1);
      var p := Sweep.Picked(xs[..m - 1], lo, hi);
      Sweep.PickedStep(xs, lo, hi, m - 1);
      if lo <= m - 1 <= hi {
        JudgedSnocErr(judge, p, xs[m - 1]);
      } else {
        Seqs.AppendEmpty(p);
      }
    }
  }

  lemma JudgedSnocErr(judge: Judge, p: seq<Row>, x: Row)
    requires Judged(judge, p).Err?
    ensures Judged(judge, p + [x]) == Judged(judge, p)
  {
    assert (p + [x])[..|p|] == p;
  }

  lemma CorrectFails(judge: Judge, xs: seq<Row>, lo: int, hi: int, j: nat)
    requires j <= |xs| && CorrectOn(judge, Sweep.Picked(xs[..j], lo, hi)).Err?
    ensures CorrectOn(judge, Sweep.Picked(xs, lo, hi)) == CorrectOn(judge, Sweep.Picked(xs[..j], lo, hi))
  {
    JudgedFails(judge, xs, lo, hi, j, |xs|);
    assert xs[..|xs|] == xs;
  }

  /** pick_k as written: append the range label and the counts to the correct-count file. */
  method PickK(c: Classifier, validation: seq<Row>, start: int, end: int) returns (r: Result<Sweep.ResultRow>)
    ensures r == PickKResult(c, validation, start, end)
  {
    var counts := CountCorrect(c, validation, start, end, JudgeWith(c));
    if counts.Err? {
      return Err(counts.fault);
    }
    return Ok(Sweep.ResultRow(Sweep.RangeLabel(start, end), counts.value));
  }

  /** pick_k's loop: `correct_counts = [0]*300`, updated in place for every validation row in
      the range. */
  method CountCorrect(c: Classifier, validation: seq<Row>, start: int, end: int, ghost judge: Judge)
      returns (r: Result<seq<int>>)
    requires forall s :: judge(s) == Judgement(c, s)
    ensures r == CorrectOn(judge, Sweep.Picked(validation, start - 1, end - 1))
  {
    var lo, hi := start - 1, end - 1;
    var correct := new int[Width](_ => 0);
    CorrectStart(judge, validation, lo, hi);
    assert correct[..] == Sweep.Zeros(Width);
    var i := 0;
    while i < |validation|
      invariant 0 <= i <= |validation|
      invariant CorrectOn(judge, Sweep.Picked(validation[..i], lo, hi)) == Ok(correct[..])
    {
      CorrectAdvance(judge, validation, lo, hi, i, correct[..]);
      if i < lo {
        i := i + 1;
        continue;
      }
      if i > hi {
        break;
      }
      ghost var before := correct[..];
      var failure := JudgeSample(c, validation[i], correct);
      if failure.Some? {
        CorrectFails(judge, validation, lo, hi, i + 1);
        return Err(failure.value);
      }
      RaisedIsRaise(before, correct[..], Judgement(c, validation[i]).value);
      i := i + 1;
    }
    Sweep.PickedDone(validation, lo, hi, i);
    return Ok(correct[..]);
  }

  /** The body of pick_k's loop for one sample: the 300 neighbours, their `(vote, dist)`
      array, and one possible increment per k. */
  method JudgeSample(c: Classifier, s: Row, correct: array<int>) returns (failure: Option<Fault>)
    requires correct.Length == Width
    modifies correct
    ensures failure.Some? <==> Judgement(c, s).Err?
    ensures failure.Some? ==> failure.value == Judgement(c, s).fault
    ensures failure.None? ==> Judgement(c, s).Ok? && Raised(old(correct[..]), correct[..], Judgement(c, s).value)
  {
    var nn := GetNN(c.root, c.dataset, s, Width);
    if nn.Err? {
      return Some(nn.fault);
    }
    var ballots, labelled := CastBallots(nn.value);
    if !labelled {
      return Some(IndexError);
    }
    if |s| == 0 {
      return Some(IndexError);
    }
    JudgementOf(c, s, nn.value, ballots[..]);
    Tally(ballots, s, correct, Judgement(c, s).value);
    return None;
  }

  /** `nn_distances = [0]*300`, then one `(vote, dist)` pair per neighbour; a row without a
      label column raises IndexError. */
  method CastBallots(nn: seq<Neighbour>) returns (ballots: array<Ballot>, labelled: bool)
    requires |nn| == Width
    ensures fresh(ballots) && ballots.Length == Width
    ensures labelled <==> AllLabelled(nn)
    ensures labelled ==> ballots[..] == BallotsOf(nn)
  {
    ballots := new Ballot[Width](_ => Ballot(0.0, 0.0));
    for index := 0 to |nn|
      invariant forall j :: 0 <= j < index ==> |nn[j].row| > 0 && ballots[j] == BallotOf(nn[j])
    {
      if |nn[index].row| == 0 {
        return ballots, false;
      }
      var vote := nn[index].row[0];
      var dist := nn[index].dist;
      ballots[index] := Ballot(vote, dist);
    }
    return ballots, true;
  }

  /** pick_k's loop over k for one sample: at each k the vote over the first k + 1 neighbours
      is compared with the sample's label, and `correct_counts[k]` goes up when they agree. */
  method Tally(ballots: array<Ballot>, sample: Row, correct: array<int>, ghost marks: seq<bool>)
    requires ballots.Length == 0 || |sample| > 0
    requires |marks| == ballots.Length == correct.Length
    requires forall k :: 0 <= k < |marks| ==> marks[k] == Right(Vote(ballots[..k + 1]), sample[0])
    modifies correct
    ensures Raised(old(correct[..]), correct[..], marks)
  {
    for k := 0 to ballots.Length
      invariant forall j :: 0 <= j < correct.Length ==>
        correct[j] == old(correct[j]) + (if j < k && marks[j] then 1 else 0)
    {
      var healthy, unhealthy := WeighPrefix(ballots, k);
      if healthy > unhealthy {
        if sample[0] == 1.0 {
          correct[k] := correct[k] + 1;
        }
      } else {
        if sample[0] == 0.0 {
          correct[k] := correct[k] + 1;
        }
      }
    }
  }

  /** The while loop over j < k + 1 that adds up the weights of the first k + 1 pairs. */
  method WeighPrefix(ballots: array<Ballot>, k: nat) returns (healthy: real, unhealthy: real)
    requires k < ballots.Length
    ensures healthy == Support(ballots[..k + 1], true) && unhealthy == Support(ballots[..k + 1], false)
  {
    ghost var bs := ballots[..];
    healthy, unhealthy := 0.0, 0.0;
    var j := 0;
    while j < k + 1
      invariant j <= k + 1
      invariant healthy == Support(bs[..j], true) && unhealthy == Support(bs[..j], false)
    {
      assert bs[..j + 1] == bs[..j] + [bs[j]];
      SupportSnoc(bs[..j], bs[j], true);
      SupportSnoc(bs[..j], bs[j], false);
      var vote := ballots[j].vote;
      var dist := ballots[j].dist;
      if dist == 0.0 {
        dist := 1.0;
      }
      if vote == 1.0 {
        healthy := healthy + 1.0 / dist;
      } else {
        unhealthy := unhealthy + 1.0 / dist;
      }
      j := j + 1;
    }
  }

  /** read_k_file(start, end): the rows of the correct-count file summed into `[0]*300`. */
  method ReadKFile(rows: seq<Sweep.ResultRow>, start: int, end: int) returns (r: Result<Sweep.Choice>)
    ensures r == Sweep.KChoice(rows, start, end, Width)
  {
    r := Sweep.ReadKFile(rows, start, end, Width);
  }
}
