/** A switch's record as the formatted JSON database holds it: model string, optional name and
    site code, six daily series keyed by day index, and the event log. Day keys are decimal
    strings in the JSON; they are modelled directly as the ints they spell. The event
    descriptor is reduced to its status tag (its first field). The database is an ordered
    list of entries, because Python dictionaries iterate in insertion order. */
module Telemetry {
  import opened Wrappers
  import opened Stats
  import opened Extract

  datatype Event = Event(day: int, status: string)

  datatype Switch = Switch(name: Option<string>, site: Option<string>, model: string,
                           tempAvg: map<int, real>, tempMax: map<int, real>,
                           cpuAvg: map<int, real>, cpuMax: map<int, real>,
                           pingLatencyAvg: map<int, real>, pingLatencyMax: map<int, real>,
                           events: seq<Event>)
  {
    /** `switch[stat]`, with the latency series stored under "ping_latency_*". */
    function Series(m: Metric): map<int, real>
    {
      match m
      case TempAvg => tempAvg
      case TempMax => tempMax
      case CpuAvg => cpuAvg
      case CpuMax => cpuMax
      case LatencyAvg => pingLatencyAvg
      case LatencyMax => pingLatencyMax
    }
  }

  datatype Entry = Entry(key: string, switch: Switch)

  /** Every tracked metric has a reading on every day of [day - len, day). */
  predicate WindowComplete(sw: Switch, day: int, len: nat)
  {
    forall m: Metric, d: int :: day - len <= d < day ==> d in sw.Series(m)
  }

  /** `is_valid_sample`: walks the days day-1, day-2, ..., day-len and, for each, the six
      series, and reports false at the first missing reading. */
  method IsValidSample(sw: Switch, day: int, len: nat) returns (valid: bool)
    ensures valid == WindowComplete(sw, day, len)
  {
    var curDay := day - 1;
    while curDay > day - len - 1
      invariant day - len - 1 <= curDay <= day - 1
      invariant forall m: Metric, d: int :: curDay < d < day ==> d in sw.Series(m)
    {
      for j := 0 to |Metrics|
        invariant forall i :: 0 <= i < j ==> curDay in sw.Series(Metrics[i])
      {
        if curDay !in sw.Series(Metrics[j]) {
          return false;
        }
      }
      forall m: Metric ensures curDay in sw.Series(m) {
        assert m == Metrics[Index(Stat(m, Level)) / 3];
      }
      curDay := curDay - 1;
    }
    return true;
  }

  /** Python's int() on a float: truncation toward zero. */
  function PyInt(r: real): (t: real)
    ensures 0.0 <= r ==> 0.0 <= t <= r < t + 1.0
    ensures r < 0.0 ==> t - 1.0 < r <= t <= 0.0
    ensures t == t.Floor as real
  {
    var n: int := if r >= 0.0 then r.Floor else -((-r).Floor);
    assert (n as real).Floor == n;
    n as real
  }

  /** `make_sample` reads temp_avg and cpu_avg with float() and the four others with int(). */
  predicate ReadAsInt(m: Metric)
  {
    m == TempMax || m == CpuMax || m == LatencyAvg || m == LatencyMax
  }

  /** The list comprehension of `make_sample`: the readings for the days day-len .. day-1,
      in order, converted as `make_sample` converts them. */
  function MetricWindow(sw: Switch, m: Metric, day: int, len: nat): (w: seq<real>)
    requires WindowComplete(sw, day, len)
    ensures |w| == len
    ensures forall i :: 0 <= i < len ==>
              w[i] == (if ReadAsInt(m) then PyInt(sw.Series(m)[day - len + i]) else sw.Series(m)[day - len + i])
  {
    seq(len, i requires 0 <= i < len =>
      var v := sw.Series(m)[day - len + i];
      if ReadAsInt(m) then PyInt(v) else v)
  }

  /** The statistics of the window of `len` days before `day`, read as `make_sample` reads them. */
  function WindowFeatures(sw: Switch, day: int, len: nat, std: seq<real> -> real): Features
    requires len > 0 && WindowComplete(sw, day, len)
  {
    Featurize(MetricWindow(sw, TempAvg, day, len), MetricWindow(sw, TempMax, day, len),
              MetricWindow(sw, CpuAvg, day, len), MetricWindow(sw, CpuMax, day, len),
              MetricWindow(sw, LatencyAvg, day, len), MetricWindow(sw, LatencyMax, day, len), std)
  }

  /** `grab_switches`, in both generations, keeps a switch unless it is a juniper or has
      fewer than `len` ping_latency_max readings. */
  predicate Keeps(e: Entry, len: nat)
  {
    e.switch.model != "juniper" && |e.switch.pingLatencyMax| >= len
  }

  /** The surviving entries, in database order. */
  function Survivors(db: seq<Entry>, len: nat): (r: seq<Entry>)
    ensures forall e :: e in r <==> e in db && Keeps(e, len)
    ensures |r| <= |db|
  {
    if db == [] then []
    else (if Keeps(db[0], len) then [db[0]] else []) + Survivors(db[1..], len)
  }
}
