/** The feature extractor shared by both sample classes: each metric's window of daily values
    is reduced to its representative value (mean or maximum), its standard deviation and its
    endpoint slope. The standard deviation is `np.std`, which is not modelled: it is handed in
    as the function `std`. */
module Extract {
  import opened Seqs
  import opened Stats
  import opened Values

  /** `np.mean`: the arithmetic mean, which lies between the list's extremes. */
  function Mean(xs: seq<real>): (m: real)
    requires |xs| > 0
    ensures Min(xs) <= m <= Max(xs)
  {
    var n, lo, hi := |xs| as real, Min(xs), Max(xs);
    SumBounds(xs, lo, hi);
    QuotientBounds(Sum(xs), n, lo, hi);
    Sum(xs) / n
  }

  /** `slope(nums)`: (last - first) / len, which is zero exactly when the endpoints agree and
      otherwise has the sign of their difference. */
  function Slope(xs: seq<real>): (r: real)
    requires |xs| > 0
    ensures r == 0.0 <==> xs[|xs| - 1] == xs[0]
    ensures r > 0.0 <==> xs[|xs| - 1] > xs[0]
    ensures r < 0.0 <==> xs[|xs| - 1] < xs[0]
  {
    (xs[|xs| - 1] - xs[0]) / (|xs| as real)
  }

  /** The three statistics of one metric's window. */
  function Summarize(m: Metric, xs: seq<real>, std: seq<real> -> real): (s: Summary)
    requires |xs| > 0
    ensures IsAverage(m) ==> Min(xs) <= s.level <= Max(xs)
    ensures !IsAverage(m) ==> s.level in xs && forall i :: 0 <= i < |xs| ==> xs[i] <= s.level
    ensures s.stdev == std(xs)
  {
    Summary(if IsAverage(m) then Mean(xs) else Max(xs), std(xs), Slope(xs))
  }

  /** A constant window has that constant as its mean and its maximum, and slope 0. */
  lemma ConstantWindow(m: Metric, xs: seq<real>, c: real, std: seq<real> -> real)
    requires |xs| > 0
    requires forall i :: 0 <= i < |xs| ==> xs[i] == c
    ensures Summarize(m, xs, std).level == c
    ensures Summarize(m, xs, std).slope == 0.0
  {
    assert xs[0] == c;
  }

  /** The eighteen statistics of a sample, from the six metric windows. */
  function Featurize(tempAvg: seq<real>, tempMax: seq<real>, cpuAvg: seq<real>, cpuMax: seq<real>,
                     latencyAvg: seq<real>, latencyMax: seq<real>, std: seq<real> -> real): Features
    requires |tempAvg| > 0 && |tempMax| > 0 && |cpuAvg| > 0
    requires |cpuMax| > 0 && |latencyAvg| > 0 && |latencyMax| > 0
  {
    Features(Summarize(TempAvg, tempAvg, std), Summarize(TempMax, tempMax, std),
             Summarize(CpuAvg, cpuAvg, std), Summarize(CpuMax, cpuMax, std),
             Summarize(LatencyAvg, latencyAvg, std), Summarize(LatencyMax, latencyMax, std))
  }

  /** The six representative values, in the order `to_array` lists them. */
  function Levels(f: Features): (cells: seq<Cell>)
    ensures |cells| == |Metrics|
    ensures forall i :: 0 <= i < |Metrics| ==> cells[i] == RealCell(f.Of(Metrics[i]).level)
  {
    [RealCell(f.tempAvg.level), RealCell(f.tempMax.level), RealCell(f.cpuAvg.level),
     RealCell(f.cpuMax.level), RealCell(f.latencyAvg.level), RealCell(f.latencyMax.level)]
  }
}
