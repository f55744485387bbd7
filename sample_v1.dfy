/** The original sample (analyzing/Sample.py): the same eighteen statistics, labelled by a
    `healthy` attribute that `to_array` rewrites in place; it carries no switch name. */
module SampleV1 {
  import opened Wrappers
  import opened Values
  import opened Stats
  import opened Extract

  /** "anon_model_c" is 0, "anon_model_j" is 1, any other string leaves the attribute unset. */
  function ModelCode(model: string): (code: Option<int>)
    ensures model == "anon_model_c" <==> code == Some(0)
    ensures model == "anon_model_j" <==> code == Some(1)
    ensures code.None? <==> model != "anon_model_c" && model != "anon_model_j"
  {
    if model == "anon_model_c" then Some(0)
    else if model == "anon_model_j" then Some(1)
    else None
  }

  class Sample {
    var healthy: Flag
    const model: Option<int>
    const features: Features

    constructor (healthy: bool, model: string,
                 tempAvg: seq<real>, tempMax: seq<real>, cpuAvg: seq<real>, cpuMax: seq<real>,
                 latencyAvg: seq<real>, latencyMax: seq<real>, std: seq<real> -> real)
      requires |tempAvg| > 0 && |tempMax| > 0 && |cpuAvg| > 0
      requires |cpuMax| > 0 && |latencyAvg| > 0 && |latencyMax| > 0
      ensures this.healthy == BoolFlag(healthy) && this.model == ModelCode(model)
      ensures features == Featurize(tempAvg, tempMax, cpuAvg, cpuMax, latencyAvg, latencyMax, std)
    {
      this.healthy := BoolFlag(healthy);
      this.model := ModelCode(model);
      this.features := Featurize(tempAvg, tempMax, cpuAvg, cpuMax, latencyAvg, latencyMax, std);
    }

    /** `to_dict()`: the label, the model code and the six representative values, keyed by
        the attribute names; a sample whose model was never set has no `model` attribute. */
    function ToDict(): (r: Result<map<string, Cell>>)
      reads this
      ensures r.Err? <==> model.None?
      ensures r.Ok? ==> "healthy" in r.value && r.value["healthy"] == FlagCell(healthy)
      ensures r.Ok? ==> "model" in r.value && r.value["model"] == IntCell(model.value)
      ensures r.Ok? ==> "name" !in r.value
      ensures r.Ok? ==> forall i :: 0 <= i < |Metrics| ==>
                          MetricName(Metrics[i]) in r.value &&
                          r.value[MetricName(Metrics[i])] == RealCell(features.Of(Metrics[i]).level)
    {
      if model.None? then Err(AttributeError)
      else
        Ok(map["healthy" := FlagCell(healthy), "model" := IntCell(model.value),
               "temp_avg" := RealCell(features.tempAvg.level), "temp_max" := RealCell(features.tempMax.level),
               "cpu_avg" := RealCell(features.cpuAvg.level), "cpu_max" := RealCell(features.cpuMax.level),
               "latency_avg" := RealCell(features.latencyAvg.level),
               "latency_max" := RealCell(features.latencyMax.level)])
    }

    /** `to_array()`: `healthy` becomes the int 1 or 0, then the 8-element list
        [healthy, model, six representative values] is returned; the new flag is a fixed point
        of the rewrite, so the call is idempotent. */
    method ToArray() returns (r: Result<seq<Cell>>)
      modifies this
      ensures healthy == old(healthy).AsBit() && healthy.AsBit() == healthy
      ensures r.Err? <==> model.None?
      ensures r.Ok? ==> |r.value| == 8
      ensures r.Ok? ==> r.value[..2] == [FlagCell(healthy), IntCell(model.value)]
      ensures r.Ok? ==> r.value[2..] == Levels(features)
    {
      if healthy.Truthy() {
        healthy := IntFlag(1);
      } else {
        healthy := IntFlag(0);
      }
      if model.None? {
        return Err(AttributeError);
      }
      r := Ok([FlagCell(healthy), IntCell(model.value)] + Levels(features));
    }
  }
}
