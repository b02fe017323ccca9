/** The first-generation loader: it refuses `include`, `services`,
    `extends` and `parallel`, defaults the stages to `test` alone and lists
    the jobs of a configuration. */
module LegacyConfigLoader {
  import opened Wrappers
  import opened Yaml
  import ConfigLoader

  /** The top-level keys that are never jobs. */
  const RESERVED_TOP_KEYS: seq<string> :=
    ["stages", "services", "image", "before_script", "after_script", "pages", "variables", "include"]

  function Reserved(): (s: set<string>)
    ensures forall k :: k in s <==> k in RESERVED_TOP_KEYS
  {
    set k | k in RESERVED_TOP_KEYS
  }

  /** The keywords refused inside a mapping entry, in the order checked. */
  const JOB_UNSUPPORTED: seq<string> := ["extends", "parallel"]

  /** check_unsupported: FeatureNotSupportedError naming `include` or
      `services` when the configuration has that key, else the first of
      `extends` and `parallel` found in a mapping entry, entries in order. */
  function CheckUnsupported(config: Dict): (r: Result<(), string>)
    ensures "include" in Keys(config) ==> r == Err("include")
    ensures "include" !in Keys(config) && "services" in Keys(config) ==> r == Err("services")
    ensures r.Ok? <==> "include" !in Keys(config) && "services" !in Keys(config) &&
                       forall n :: n in Keys(config) && Get(config, n).value.Map? ==>
                         "extends" !in Keys(Get(config, n).value.entries) &&
                         "parallel" !in Keys(Get(config, n).value.entries)
    ensures r.Err? && r.error !in ["include", "services"] ==>
              r.error in JOB_UNSUPPORTED && exists n :: ConfigLoader.Holds(config, n, r.error)
  {
    if "include" in Keys(config) then Err("include")
    else if "services" in Keys(config) then Err("services")
    else
      match ConfigLoader.FirstUnsupported(config, Keys(config), JOB_UNSUPPORTED)
      case None =>
        assert forall n :: n in Keys(config) && Get(config, n).value.Map? ==>
                 !ConfigLoader.Holds(config, n, "extends") && !ConfigLoader.Holds(config, n, "parallel");
        Ok(())
      case Some(bad) => Err(bad)
  }

  /** get_stages: the `stages` entry, or `test` alone. */
  function GetStages(config: Dict): (stages: Value)
    ensures "stages" in Keys(config) ==> Some(stages) == Get(config, "stages")
    ensures "stages" !in Keys(config) ==> stages == List([Str("test")])
  {
    GetOr(config, "stages", List([Str("test")]))
  }

  /** get_jobs: the loop that collects the non-reserved keys whose values
      are mappings, in the configuration's order. */
  method GetJobs(config: Dict) returns (jobs: seq<string>)
    ensures jobs == ConfigLoader.GetJobs(config, Reserved())
  {
    jobs := [];
    var names := Keys(config);
    for i := 0 to |names|
      invariant jobs == ConfigLoader.JobsAmong(config, Reserved(), names[..i])
    {
      var name := names[i];
      JobsAmongSnoc(config, Reserved(), names[..i], name);
      assert names[..i + 1] == names[..i] + [name];
      if name !in RESERVED_TOP_KEYS {
        var child := Get(config, name).value;
        if child.Map? {
          jobs := jobs + [name];
        }
      }
    }
    assert names[..|names|] == names;
  }

  /** Filtering one more name extends the jobs by that name when it is one. */
  lemma {:induction false} JobsAmongSnoc(config: Dict, reserved: set<string>, names: seq<string>, x: string)
    ensures ConfigLoader.JobsAmong(config, reserved, names + [x])
            == ConfigLoader.JobsAmong(config, reserved, names)
               + (if ConfigLoader.IsJob(config, reserved, x) then [x] else [])
  {
    if names != [] {
      assert (names + [x])[1..] == names[1..] + [x];
      JobsAmongSnoc(config, reserved, names[1..], x);
    }
  }

  /** The legacy jobs of a well-formed configuration are exactly its
      non-reserved mapping entries, each once, in order. */
  lemma LegacyJobsOrder(config: Dict)
    requires WellFormed(config)
    ensures var jobs := ConfigLoader.GetJobs(config, Reserved());
            Distinct(jobs) &&
            (forall n :: n in jobs <==> n in Keys(config) && n !in RESERVED_TOP_KEYS && Get(config, n).value.Map?) &&
            forall i, j :: 0 <= i < j < |jobs| ==> IndexIn(Keys(config), jobs[i]) < IndexIn(Keys(config), jobs[j])
  {
    ConfigLoader.GetJobsOrder(config, Reserved());
  }
}
