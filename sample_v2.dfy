/** The v0.2 sample (v0.2/analyzing/Sample.py): one labelled window of a switch reduced to
    eighteen statistics. The statistics, name and model code never change after construction
    and are constants; the `failing` attribute is rewritten in place by `to_array`. */
module SampleV2 {
  import opened Wrappers
  import opened Values
  import opened Stats
  import opened Extract

  /** The model string as the sample stores it: "cisco" is 0, "juniper" is 1, and any other
      string leaves the attribute unset. */
  function ModelCode(model: string): (code: Option<int>)
    ensures model == "cisco" <==> code == Some(0)
    ensures model == "juniper" <==> code == Some(1)
    ensures code.None? <==> model != "cisco" && model != "juniper"
  {
    if model == "cisco" then Some(0)
    else if model == "juniper" then Some(1)
    else None
  }

  class Sample {
    var failing: Flag
    const name: string
    const model: Option<int>
    const features: Features

    constructor (failing: bool, name: string, model: string,
                 tempAvg: seq<real>, tempMax: seq<real>, cpuAvg: seq<real>, cpuMax: seq<real>,
                 latencyAvg: seq<real>, latencyMax: seq<real>, std: seq<real> -> real)
      requires |tempAvg| > 0 && |tempMax| > 0 && |cpuAvg| > 0
      requires |cpuMax| > 0 && |latencyAvg| > 0 && |latencyMax| > 0
      ensures this.failing == BoolFlag(failing)
      ensures this.name == name && this.model == ModelCode(model)
      ensures features == Featurize(tempAvg, tempMax, cpuAvg, cpuMax, latencyAvg, latencyMax, std)
    {
      this.failing := BoolFlag(failing);
      this.name := name;
      this.model := ModelCode(model);
      this.features := Featurize(tempAvg, tempMax, cpuAvg, cpuMax, latencyAvg, latencyMax, std);
    }

    /** `to_dict()`: the label under the key 'healthy' (it holds the `failing` flag), the
        name, the model code and the six representative values; reading the unset model
        attribute raises AttributeError. */
    function ToDict(): (r: Result<map<string, Cell>>)
      reads this
      ensures r.Err? <==> model.None?
      ensures r.Ok? ==> "healthy" in r.value && r.value["healthy"] == FlagCell(failing)
      ensures r.Ok? ==> "name" in r.value && r.value["name"] == TextCell(name)
      ensures r.Ok? ==> "model" in r.value && r.value["model"] == IntCell(model.value)
      ensures r.Ok? ==> forall i :: 0 <= i < |Metrics| ==>
                          MetricName(Metrics[i]) in r.value &&
                          r.value[MetricName(Metrics[i])] == RealCell(features.Of(Metrics[i]).level)
    {
      if model.None? then Err(AttributeError)
      else
        Ok(map["healthy" := FlagCell(failing), "name" := TextCell(name), "model" := IntCell(model.value),
               "temp_avg" := RealCell(features.tempAvg.level), "temp_max" := RealCell(features.tempMax.level),
               "cpu_avg" := RealCell(features.cpuAvg.level), "cpu_max" := RealCell(features.cpuMax.level),
               "latency_avg" := RealCell(features.latencyAvg.level),
               "latency_max" := RealCell(features.latencyMax.level)])
    }

    /** `to_array()`: first turns `failing` into the int 1 or 0 (keeping its truth value),
        then lists [failing, name, model, six representative values]. The new flag is a fixed
        point of the rewrite, so a second call stores the same flag and returns the same list. */
    method ToArray() returns (r: Result<seq<Cell>>)
      modifies this
      ensures failing == old(failing).AsBit() && failing.AsBit() == failing
      ensures r.Err? <==> model.None?
      ensures r.Ok? ==> |r.value| == 9
      ensures r.Ok? ==> r.value[..3] == [FlagCell(failing), TextCell(name), IntCell(model.value)]
      ensures r.Ok? ==> r.value[3..] == Levels(features)
    {
      if failing.Truthy() {
        failing := IntFlag(1);
      } else {
        failing := IntFlag(0);
      }
      if model.None? {
        return Err(AttributeError);
      }
      r := Ok([FlagCell(failing), TextCell(name), IntCell(model.value)] + Levels(features));
    }
  }
}
