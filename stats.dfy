/** The six tracked metrics of a switch and the eighteen window statistics derived from them,
    in the fixed order the feature table uses. */
module Stats {

  datatype Metric = TempAvg | TempMax | CpuAvg | CpuMax | LatencyAvg | LatencyMax

  /** The three statistics of one metric's window: the representative value (mean or
      maximum), the population standard deviation and the endpoint slope. */
  datatype Kind = Level | Stdev | Slope

  datatype Stat = Stat(metric: Metric, kind: Kind)

  const Metrics: seq<Metric> := [TempAvg, TempMax, CpuAvg, CpuMax, LatencyAvg, LatencyMax]

  /** The order of the eighteen statistics in a feature row. */
  const StatsFull: seq<Stat> := [
    Stat(TempAvg, Level), Stat(TempAvg, Stdev), Stat(TempAvg, Slope),
    Stat(TempMax, Level), Stat(TempMax, Stdev), Stat(TempMax, Slope),
    Stat(CpuAvg, Level), Stat(CpuAvg, Stdev), Stat(CpuAvg, Slope),
    Stat(CpuMax, Level), Stat(CpuMax, Stdev), Stat(CpuMax, Slope),
    Stat(LatencyAvg, Level), Stat(LatencyAvg, Stdev), Stat(LatencyAvg, Slope),
    Stat(LatencyMax, Level), Stat(LatencyMax, Stdev), Stat(LatencyMax, Slope)]

  /** Average metrics are summarised by their mean, the others by their maximum. */
  predicate IsAverage(m: Metric)
  {
    m == TempAvg || m == CpuAvg || m == LatencyAvg
  }

  /** The Sample attribute name of a metric's representative value. */
  function MetricName(m: Metric): string
  {
    match m
    case TempAvg => "temp_avg"
    case TempMax => "temp_max"
    case CpuAvg => "cpu_avg"
    case CpuMax => "cpu_max"
    case LatencyAvg => "latency_avg"
    case LatencyMax => "latency_max"
  }

  /** The Sample attribute name of a statistic, as listed in `stats_full`. */
  function StatName(s: Stat): string
  {
    MetricName(s.metric) + match s.kind
                           case Level => ""
                           case Stdev => "_stdev"
                           case Slope => "_slope"
  }

  /** The position of a statistic in `StatsFull`. */
  function Index(s: Stat): (i: nat)
    ensures i < |StatsFull| && StatsFull[i] == s
  {
    var m := match s.metric
             case TempAvg => 0
             case TempMax => 1
             case CpuAvg => 2
             case CpuMax => 3
             case LatencyAvg => 4
             case LatencyMax => 5;
    var k := match s.kind
             case Level => 0
             case Stdev => 1
             case Slope => 2;
    3 * m + k
  }

  /** `StatsFull` lists every statistic exactly once. */
  lemma StatsFullIsEnumeration()
    ensures |StatsFull| == 18
    ensures forall s: Stat :: s in StatsFull
    ensures forall i, j :: 0 <= i < j < |StatsFull| ==> StatsFull[i] != StatsFull[j]
  {
    forall s: Stat ensures s in StatsFull {
      var i := Index(s);
    }
  }

  /** Different statistics have different attribute names, so a name identifies its statistic. */
  lemma StatNameInjective(a: Stat, b: Stat)
    requires StatName(a) == StatName(b)
    ensures a == b
  {
    var x, y := StatName(a), StatName(b);
    assert |x| == |y| && x[0] == y[0] && x[|MetricName(a.metric)| - 3] == y[|MetricName(a.metric)| - 3];
    assert MetricName(a.metric) == x[..|MetricName(a.metric)|];
  }

  /** The eighteen statistics of one window, grouped by metric. */
  datatype Summary = Summary(level: real, stdev: real, slope: real)

  datatype Features = Features(tempAvg: Summary, tempMax: Summary, cpuAvg: Summary,
                               cpuMax: Summary, latencyAvg: Summary, latencyMax: Summary)
  {
    function Of(m: Metric): Summary
    {
      match m
      case TempAvg => tempAvg
      case TempMax => tempMax
      case CpuAvg => cpuAvg
      case CpuMax => cpuMax
      case LatencyAvg => latencyAvg
      case LatencyMax => latencyMax
    }

    /** `getattr(sample, stat)`. */
    function Get(s: Stat): real
    {
      match s.kind
      case Level => Of(s.metric).level
      case Stdev => Of(s.metric).stdev
      case Slope => Of(s.metric).slope
    }
  }
}
