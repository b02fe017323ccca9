/** Generating a sub-pipeline: the requested jobs and everything they need,
    with the keys that select or inherit jobs removed, and the stages they
    use. */
module Generator {
  import opened Wrappers
  import opened Yaml
  import opened ConfigLoader

  /** The keys removed from every generated job. */
  const STRIPPED: seq<string> := ["extends", "when", "only", "rules", "except"]

  /** A job with each of ks deleted when present. */
  function StripKeys(job: Dict, ks: seq<string>): (r: Dict)
    ensures forall k :: k in ks ==> Get(r, k) == None
    ensures forall k :: k !in ks ==> Get(r, k) == Get(job, k)
    ensures forall k :: k in Keys(r) <==> k in Keys(job) && k !in ks
    ensures WellFormed(job) ==> WellFormed(r)
    decreases |ks|
  {
    if ks == [] then job
    else
      var d := if ks[0] in Keys(job) then Delete(job, ks[0]) else job;
      assert WellFormed(job) ==> WellFormed(d) by {
        if WellFormed(job) {
          DeleteWellFormed(job, ks[0]);
        }
      }
      StripKeys(d, ks[1..])
  }

  /** The `for remove in [...]: if remove in job: del job[remove]` loop. */
  method StripJob(job: Dict, ks: seq<string>) returns (r: Dict)
    ensures r == StripKeys(job, ks)
  {
    r := job;
    for i := 0 to |ks|
      invariant StripKeys(r, ks[i..]) == StripKeys(job, ks)
    {
      assert ks[i..][1..] == ks[i + 1..];
      if ks[i] in Keys(r) {
        r := Delete(r, ks[i]);
      }
    }
  }

  /** The job one `needs` item names: a string, or the `job` of a mapping. */
  function NeedItem(item: Value): (r: Result<Option<string>, ConfigError>)
    ensures item.Str? ==> r == Ok(Some(item.s))
    ensures !item.Str? && !item.Map? ==> r == Ok(None)
    ensures item.Map? && !Truthy(GetOr(item.entries, "job", Null)) ==> r == Ok(None)
    ensures item.Map? && GetOr(item.entries, "job", Null).Str? ==>
              r == (if Truthy(GetOr(item.entries, "job", Null))
                    then Ok(Some(GetOr(item.entries, "job", Null).s)) else Ok(None))
  {
    match item
    case Str(s) => Ok(Some(s))
    case Map(entries) =>
      var j := GetOr(entries, "job", Null);
      if !Truthy(j) then Ok(None)
      else if j.Str? then Ok(Some(j.s))
      else if j.List? || j.Map? then Err(Python(TypeError))  // unhashable
      else Err(NeedNotAName(j))
    case _ => Ok(None)
  }

  /** The job names of a list of `needs` items, in order. */
  function NeedNames(items: seq<Value>): (r: Result<seq<string>, ConfigError>)
    ensures r.Ok? <==> forall i :: 0 <= i < |items| ==> NeedItem(items[i]).Ok?
    ensures r.Ok? ==> forall s :: s in r.value <==> exists i :: 0 <= i < |items| && NeedItem(items[i]) == Ok(Some(s))
  {
    if items == [] then Ok([])
    else
      var first :- NeedItem(items[0]);
      var rest :- NeedNames(items[1..]);
      assert forall i :: 1 <= i < |items| ==> items[i] == items[1..][i - 1];
      Ok((if first.Some? then [first.value] else []) + rest)
  }

  /** The names a job needs: its `needs` entry, walked as Python iterates it. */
  function Needs(job: Dict): (r: Result<seq<string>, ConfigError>)
    ensures "needs" !in Keys(job) ==> r == Ok([])
  {
    var items :- Py(Iterate(GetOr(job, "needs", List([]))));
    NeedNames(items)
  }

  /** The needed names of a generated entry (none for a failed walk). */
  function NeedList(v: Value): seq<string> {
    if v.Map? && Needs(v.entries).Ok? then Needs(v.entries).value else []
  }

  /** Needs only read `needs`, so two jobs that agree there need the same. */
  lemma NeedsAgree(j1: Dict, j2: Dict)
    requires Get(j1, "needs") == Get(j2, "needs")
    ensures Needs(j1) == Needs(j2)
  {
    assert GetOr(j1, "needs", List([])) == GetOr(j2, "needs", List([]));
  }

  /** `if stage not in stages: stages.append(stage)` for a truthy stage. */
  function AddStage(stages: Value, stage: Value): (r: Result<Value, ConfigError>)
    ensures r.Ok? ==> In(stage, r.value) == Ok(true)
    ensures r.Ok? && stages.List? ==> r.value.List? && stages.items <= r.value.items
    ensures stages.List? ==> r.Ok?
  {
    match In(stage, stages)
    case Err(e) => Err(Python(e))
    case Ok(found) =>
      if found then Ok(stages)
      else if stages.List? then Ok(List(stages.items + [stage]))
      else Err(Python(AttributeError))
  }

  /** The stages after visiting a job: its stage is added when truthy. */
  function JobStage(stages: Value, job: Dict): (r: Result<Value, ConfigError>)
    ensures r.Ok? && Truthy(GetOr(job, "stage", Null)) ==> In(GetOr(job, "stage", Null), r.value) == Ok(true)
    ensures r.Ok? && stages.List? ==> r.value.List? && stages.items <= r.value.items
    ensures stages.List? ==> r.Ok?
  {
    var stage := GetOr(job, "stage", Null);
    if Truthy(stage) then AddStage(stages, stage) else Ok(stages)
  }

  /** Adding a stage keeps every stage already present. */
  lemma AddStageKeeps(stages: Value, stage: Value, other: Value)
    requires AddStage(stages, stage).Ok? && In(other, stages) == Ok(true)
    ensures In(other, AddStage(stages, stage).value) == Ok(true)
  {
  }

  /** The job's entry as generated: its stage defaulted and the selection
      keys removed. */
  function Generated(config: Dict, name: string): Dict
    requires name in Keys(config) && Get(config, name).value.Map?
  {
    StripKeys(Staged(Get(config, name).value.entries), STRIPPED)
  }

  lemma GeneratedNeeds(config: Dict, name: string)
    requires name in Keys(config) && Get(config, name).value.Map?
    ensures Needs(Generated(config, name)) == Needs(Get(config, name).value.entries)
  {
    NeedsAgree(Generated(config, name), Get(config, name).value.entries);
  }

  /** The union of the names generated entries need. */
  function AllNeeds(gen: Dict): set<string>
    decreases |gen|
  {
    if gen == [] then {} else AllNeeds(gen[..|gen| - 1]) + Elems(NeedList(gen[|gen| - 1].1))
  }

  lemma {:induction false} AllNeedsHas(gen: Dict, i: nat)
    requires i < |gen|
    ensures Elems(NeedList(gen[i].1)) <= AllNeeds(gen)
    decreases |gen|
  {
    if i < |gen| - 1 {
      var front := gen[..|gen| - 1];
      assert front[i] == gen[i];
      AllNeedsHas(front, i);
    }
  }

  /** Only names some generated entry needs are in the union. */
  lemma {:induction false} AllNeedsFrom(gen: Dict, n: string) returns (i: nat)
    requires n in AllNeeds(gen)
    ensures i < |gen| && n in NeedList(gen[i].1)
    decreases |gen|
  {
    var front := gen[..|gen| - 1];
    if n in AllNeeds(front) {
      i := AllNeedsFrom(front, n);
      assert front[i] == gen[i];
    } else {
      i := |gen| - 1;
    }
  }

  lemma AllNeedsSnoc(gen: Dict, e: (string, Value))
    ensures AllNeeds(gen + [e]) == AllNeeds(gen) + Elems(NeedList(e.1))
  {
    assert (gen + [e])[..|gen|] == gen;
  }

  /** Each generated job is a goal or is needed by a job generated before it,
      so every generated job is reachable from the goals through needs. */
  predicate Supported(gen: Dict, goals: seq<string>)
    decreases |gen|
  {
    gen == [] ||
    (var front := gen[..|gen| - 1];
     Supported(front, goals) && (gen[|gen| - 1].0 in goals || gen[|gen| - 1].0 in AllNeeds(front)))
  }

  /** Every name any job of the configuration needs. */
  function NeedUniverse(config: Dict): (u: set<string>)
    ensures forall n :: n in Keys(config) ==> Elems(NeedList(Get(config, n).value)) <= u
    decreases |config|
  {
    if config == [] then {}
    else
      var rest := NeedUniverse(config[1..]);
      assert forall n :: n in Keys(config) && n != config[0].0 ==> n in Keys(config[1..]);
      Elems(NeedList(config[0].1)) + rest
  }

  /** The job entries of the output: all but a trailing `stages` entry. */
  function JobPart(out: Dict): Dict {
    if out != [] && out[|out| - 1].0 == "stages" then out[..|out| - 1] else out
  }

  /** The configuration while generating: each generated job holds its
      generated form, in the output and in the configuration, the config's
      own `stages` list is the one being extended and nothing else changed. */
  ghost predicate GenConfig(config0: Dict, reserved: set<string>, config: Dict, gen: Dict, stages: Value)
  {
    "stages" in reserved && WellFormed(config0) && WellFormed(config) && WellFormed(gen) &&
    Keys(config) == Keys(config0) &&
    GenJobs(config0, reserved, gen) &&
    (forall n :: n in Keys(gen) ==> Get(config, n) == Get(gen, n)) &&
    (forall n :: n !in Keys(gen) && n != "stages" ==> Get(config, n) == Get(config0, n)) &&
    Get(config, "stages") == (if "stages" in Keys(config0) then Some(stages) else None)
  }

  /** Each generated entry is a job of the configuration in its generated form. */
  ghost predicate GenJobs(config0: Dict, reserved: set<string>, gen: Dict) {
    forall i :: 0 <= i < |gen| ==> GenEntry(config0, reserved, gen[i])
  }

  ghost predicate GenEntry(config0: Dict, reserved: set<string>, e: (string, Value)) {
    IsJob(config0, reserved, e.0) && e.1 == Map(Generated(config0, e.0))
  }

  lemma GenJobsSnoc(config0: Dict, reserved: set<string>, gen: Dict, name: string, job: Dict)
    requires GenJobs(config0, reserved, gen)
    requires IsJob(config0, reserved, name) && job == Generated(config0, name)
    ensures GenJobs(config0, reserved, gen + [(name, Map(job))])
  {
    var gen' := gen + [(name, Map(job))];
    assert GenEntry(config0, reserved, (name, Map(job)));
    forall i | 0 <= i < |gen'|
      ensures GenEntry(config0, reserved, gen'[i])
    {
      if i < |gen| {
        assert gen'[i] == gen[i];
        assert GenEntry(config0, reserved, gen[i]);
      } else {
        assert i == |gen| && gen'[i] == (name, Map(job));
      }
    }
  }

  /** A job's needs are among the names the configuration needs anywhere. */
  lemma NeedsInUniverse(config0: Dict, reserved: set<string>, name: string, job: Dict)
    requires IsJob(config0, reserved, name) && job == Generated(config0, name)
    requires Needs(job).Ok?
    ensures forall s :: s in Needs(job).value ==> s in NeedUniverse(config0)
  {
    GeneratedNeeds(config0, name);
    assert NeedList(Get(config0, name).value) == Needs(job).value;
    assert Elems(Needs(job).value) <= NeedUniverse(config0);
  }

  /** The worklist: pending names are not generated, and every goal and
      every need of a generated job is generated or pending. */
  ghost predicate GenWork(config0: Dict, goals: seq<string>, gen: Dict, needed: set<string>)
  {
    (forall n :: n in needed ==> n !in Keys(gen)) &&
    (forall g :: g in goals ==> g in Keys(gen) || g in needed) &&
    (forall i :: 0 <= i < |gen| ==> forall s :: s in NeedList(gen[i].1) ==> s in Keys(gen) || s in needed) &&
    Supported(gen, goals) &&
    (forall n :: n in needed ==> n in goals || n in AllNeeds(gen)) &&
    (forall n :: n in needed ==> n in goals || n in NeedUniverse(config0)) &&
    (forall n :: n in Keys(gen) ==> n in goals || n in NeedUniverse(config0))
  }

  /** The stage of a generated job, `null` when it has none. */
  function StageOf(job: Value): Value {
    if job.Map? then GetOr(job.entries, "stage", Null) else Null
  }

  /** The stages that the jobs, visited in order, append to a list already
      holding `items`: each truthy stage not yet in the list, once, in the
      order first seen. */
  function NewStages(jobs: Dict, items: seq<Value>): (r: seq<Value>)
    ensures |r| <= |jobs|
    decreases |jobs|
  {
    if jobs == [] then []
    else
      var earlier := NewStages(jobs[..|jobs| - 1], items);
      var stage := StageOf(jobs[|jobs| - 1].1);
      if Truthy(stage) && stage !in items + earlier then earlier + [stage] else earlier
  }

  /** The new stages are truthy, not already configured, and each is
      appended once. */
  lemma {:induction false} NewStagesFresh(jobs: Dict, items: seq<Value>)
    ensures forall k :: 0 <= k < |NewStages(jobs, items)| ==>
              Truthy(NewStages(jobs, items)[k]) && NewStages(jobs, items)[k] !in items
    ensures forall k, l :: 0 <= k < l < |NewStages(jobs, items)| ==>
              NewStages(jobs, items)[k] != NewStages(jobs, items)[l]
    decreases |jobs|
  {
    if jobs != [] {
      var earlier := NewStages(jobs[..|jobs| - 1], items);
      NewStagesFresh(jobs[..|jobs| - 1], items);
      assert forall k, l :: 0 <= k < l < |earlier| ==> earlier[k] != earlier[l];
      var stage := StageOf(jobs[|jobs| - 1].1);
      if Truthy(stage) && stage !in items + earlier {
        var r := earlier + [stage];
        assert NewStages(jobs, items) == r;
        assert forall k :: 0 <= k < |earlier| ==> r[k] == earlier[k];
        assert r[|earlier|] == stage && stage !in items;
        forall k, l | 0 <= k < l < |r|
          ensures r[k] != r[l]
        {
          if l == |earlier| {
            assert earlier[k] in items + earlier;
          } else {
            assert r[k] == earlier[k] && r[l] == earlier[l];
          }
        }
      } else {
        assert NewStages(jobs, items) == earlier;
      }
    }
  }

  /** Every job's truthy stage ends up in the list. */
  lemma {:induction false} NewStagesCover(jobs: Dict, items: seq<Value>)
    ensures forall i :: 0 <= i < |jobs| && Truthy(StageOf(jobs[i].1)) ==>
              StageOf(jobs[i].1) in items + NewStages(jobs, items)
    decreases |jobs|
  {
    if jobs != [] {
      var init := jobs[..|jobs| - 1];
      NewStagesCover(init, items);
      assert NewStages(init, items) <= NewStages(jobs, items);
      forall i | 0 <= i < |jobs| - 1 && Truthy(StageOf(jobs[i].1))
        ensures StageOf(jobs[i].1) in items + NewStages(jobs, items)
      {
        assert jobs[i] == init[i];
      }
    }
  }

  /** Every new stage is the stage of one of the jobs. */
  lemma {:induction false} NewStagesFrom(jobs: Dict, items: seq<Value>, k: nat)
    requires k < |NewStages(jobs, items)|
    ensures exists i :: 0 <= i < |jobs| && StageOf(jobs[i].1) == NewStages(jobs, items)[k]
    decreases |jobs|
  {
    var init := jobs[..|jobs| - 1];
    if k < |NewStages(init, items)| {
      NewStagesFrom(init, items, k);
      var i :| 0 <= i < |init| && StageOf(init[i].1) == NewStages(init, items)[k];
      assert jobs[i] == init[i];
    } else {
      assert StageOf(jobs[|jobs| - 1].1) == NewStages(jobs, items)[k];
    }
  }

  /** Every generated job's truthy stage is among the stages, and a list of
      stages is the configured one followed by the jobs' new stages. */
  ghost predicate GenStages(gen: Dict, stages0: Value, stages: Value)
  {
    (forall i :: 0 <= i < |gen| && gen[i].1.Map? && Truthy(GetOr(gen[i].1.entries, "stage", Null)) ==>
       In(GetOr(gen[i].1.entries, "stage", Null), stages) == Ok(true)) &&
    (stages0.List? ==> stages == List(stages0.items + NewStages(gen, stages0.items)))
  }

  /** The invariant of the generating loop. */
  ghost predicate GenState(config0: Dict, reserved: set<string>, goals: seq<string>, stages0: Value,
                           config: Dict, gen: Dict, needed: set<string>, stages: Value)
  {
    GenConfig(config0, reserved, config, gen, stages) &&
    GenWork(config0, goals, gen, needed) &&
    GenStages(gen, stages0, stages)
  }

  /** Appending a new key adds exactly that key. */
  lemma {:induction false} GetSnoc(d: Dict, k: string, v: Value, j: string)
    requires k !in Keys(d)
    ensures Get(d + [(k, v)], j) == if j == k then Some(v) else Get(d, j)
    ensures Keys(d + [(k, v)]) == Keys(d) + [k]
  {
    if d != [] {
      assert (d + [(k, v)])[1..] == d[1..] + [(k, v)];
      GetSnoc(d[1..], k, v, j);
    }
  }

  /** The configuration entry of `stages`, when it has one, is the list the
      loop extends. */
  function SetStages(config: Dict, stages: Value): (c: Dict)
    ensures Keys(c) == Keys(config)
    ensures Get(c, "stages") == if "stages" in Keys(config) then Some(stages) else None
    ensures forall k :: k != "stages" ==> Get(c, k) == Get(config, k)
    ensures WellFormed(config) ==> WellFormed(c)
  {
    if "stages" in Keys(config) then
      SetOthers(config, "stages", stages);
      assert WellFormed(config) ==> WellFormed(Set(config, "stages", stages)) by {
        if WellFormed(config) {
          SetWellFormed(config, "stages", stages);
        }
      }
      Set(config, "stages", stages)
    else config
  }

  lemma WellFormedSnoc(d: Dict, k: string, v: Value)
    requires WellFormed(d) && k !in Keys(d)
    ensures WellFormed(d + [(k, v)])
  {
    GetSnoc(d, k, v, k);
    var ks := Keys(d + [(k, v)]);
    forall i, j | 0 <= i < j < |ks|
      ensures ks[i] != ks[j]
    {
      if j == |d| {
        assert Keys(d)[i] in Keys(d);
      }
    }
  }

  /** Reserved names, `stages` among them, are never generated. */
  lemma StagesNotGenerated(config0: Dict, reserved: set<string>, gen: Dict)
    requires GenJobs(config0, reserved, gen) && "stages" in reserved
    ensures "stages" !in Keys(gen)
  {
    forall i | 0 <= i < |gen|
      ensures gen[i].0 != "stages"
    {
      assert GenEntry(config0, reserved, gen[i]);
    }
  }

  /** Storing an entry under a new generated name, and then the stages,
      keeps generated entries agreeing with the output and every other
      entry as it was. */
  lemma StoreGets(config0: Dict, config: Dict, gen: Dict, name: string, c1: Dict, v: Value, stages': Value)
    requires forall n :: n in Keys(gen) ==> Get(config, n) == Get(gen, n)
    requires forall n :: n !in Keys(gen) && n != "stages" ==> Get(config, n) == Get(config0, n)
    requires "stages" !in Keys(gen) && name != "stages" && name !in Keys(gen)
    requires forall k :: k != name ==> Get(c1, k) == Get(config, k)
    ensures forall n :: n in Keys(gen + [(name, v)]) ==>
              Get(SetStages(Set(c1, name, v), stages'), n) == Get(gen + [(name, v)], n)
    ensures forall n :: n !in Keys(gen + [(name, v)]) && n != "stages" ==>
              Get(SetStages(Set(c1, name, v), stages'), n) == Get(config0, n)
  {
    var c3 := SetStages(Set(c1, name, v), stages');
    var gen' := gen + [(name, v)];
    SetOthers(c1, name, v);
    forall n
      ensures Get(gen', n) == if n == name then Some(v) else Get(gen, n)
      ensures n in Keys(gen') <==> n in Keys(gen) || n == name
    {
      GetSnoc(gen, name, v, n);
    }
    forall n | n in Keys(gen')
      ensures Get(c3, n) == Get(gen', n)
    {
      if n != name {
        assert Get(c1, n) == Get(config, n) == Get(gen, n);
      }
    }
  }

  /** Storing a generated job, and the stages list, keeps the configuration
      invariant. */
  lemma ConfigStep(config0: Dict, reserved: set<string>, config: Dict, gen: Dict, stages: Value,
                   name: string, c1: Dict, job: Dict, stages': Value)
    requires GenConfig(config0, reserved, config, gen, stages)
    requires name !in Keys(gen) && name != "stages" && IsJob(config0, reserved, name)
    requires job == Generated(config0, name)
    requires Keys(c1) == Keys(config) && forall k :: k != name ==> Get(c1, k) == Get(config, k)
    ensures GenConfig(config0, reserved, SetStages(Set(c1, name, Map(job)), stages'),
                      gen + [(name, Map(job))], stages')
  {
    var c2 := Set(c1, name, Map(job));
    assert WellFormed(c1) by {
      assert Keys(c1) == Keys(config);
    }
    SetWellFormed(c1, name, Map(job));
    GetSnoc(gen, name, Map(job), name);
    WellFormedSnoc(gen, name, Map(job));
    StagesNotGenerated(config0, reserved, gen);
    StoreGets(config0, config, gen, name, c1, Map(job), stages');
    GenJobsSnoc(config0, reserved, gen, name, job);
  }

  /** Storing a generated job and the stages it leaves keeps both the
      configuration and the stages invariant. */
  lemma StoreStep(config0: Dict, reserved: set<string>, config: Dict, gen: Dict, stages0: Value, stages: Value,
                  name: string, c1: Dict, job: Dict, stages': Value)
    requires GenConfig(config0, reserved, config, gen, stages) && GenStages(gen, stages0, stages)
    requires name !in Keys(gen) && name != "stages" && IsJob(config0, reserved, name)
    requires job == Generated(config0, name) && JobStage(stages, job) == Ok(stages')
    requires Keys(c1) == Keys(config) && forall k :: k != name ==> Get(c1, k) == Get(config, k)
    ensures GenConfig(config0, reserved, SetStages(Set(c1, name, Map(job)), stages'),
                      gen + [(name, Map(job))], stages')
    ensures GenStages(gen + [(name, Map(job))], stages0, stages')
    ensures Get(gen + [(name, Map(job))], name) == Some(Map(job))
    ensures Keys(gen + [(name, Map(job))]) == Keys(gen) + [name]
  {
    ConfigStep(config0, reserved, config, gen, stages, name, c1, job, stages');
    StagesStep(gen, stages0, stages, name, job, stages');
    GetSnoc(gen, name, Map(job), name);
  }

  /** Visiting a pending name keeps the worklist invariant. */
  lemma NeedListOf(job: Dict)
    requires Needs(job).Ok?
    ensures NeedList(Map(job)) == Needs(job).value
  {
  }

  lemma WorkStep(config0: Dict, goals: seq<string>, gen: Dict, needed: set<string>,
                 name: string, job: Value, ns: seq<string>, pending: set<string>)
    requires GenWork(config0, goals, gen, needed) && name in needed
    requires NeedList(job) == ns
    requires forall s :: s in ns ==> s in NeedUniverse(config0)
    requires forall s :: s in pending <==> s in needed - {name} || (s in ns && s !in Keys(gen) + [name])
    ensures GenWork(config0, goals, gen + [(name, job)], pending)
  {
    var gen' := gen + [(name, job)];
    forall n
      ensures Get(gen', n) == if n == name then Some(job) else Get(gen, n)
      ensures n in Keys(gen') <==> n in Keys(gen) || n == name
    {
      GetSnoc(gen, name, job, n);
    }
    assert gen'[..|gen'| - 1] == gen;
    AllNeedsSnoc(gen, (name, job));
    ClosedSnoc(gen, needed, name, job, ns, pending);
  }

  /** A visited job's needs are generated or pending afterwards, as every
      earlier job's are. */
  lemma ClosedSnoc(gen: Dict, needed: set<string>, name: string, job: Value, ns: seq<string>, pending: set<string>)
    requires name !in Keys(gen)
    requires forall i :: 0 <= i < |gen| ==> forall s :: s in NeedList(gen[i].1) ==> s in Keys(gen) || s in needed
    requires NeedList(job) == ns
    requires forall s :: s in pending <==> s in needed - {name} || (s in ns && s !in Keys(gen) + [name])
    ensures var gen' := gen + [(name, job)];
            forall i :: 0 <= i < |gen'| ==> forall s :: s in NeedList(gen'[i].1) ==> s in Keys(gen') || s in pending
  {
    var gen' := gen + [(name, job)];
    GetSnoc(gen, name, job, name);
    forall i, s | 0 <= i < |gen'| && s in NeedList(gen'[i].1)
      ensures s in Keys(gen') || s in pending
    {
      if i < |gen| {
        assert gen'[i] == gen[i];
      }
    }
  }

  /** Visiting a job keeps the stages invariant. */
  lemma StagesStep(gen: Dict, stages0: Value, stages: Value, name: string, job: Dict, stages': Value)
    requires GenStages(gen, stages0, stages)
    requires JobStage(stages, job) == Ok(stages')
    ensures GenStages(gen + [(name, Map(job))], stages0, stages')
  {
    var stage := GetOr(job, "stage", Null);
    var gen' := gen + [(name, Map(job))];
    assert forall i :: 0 <= i < |gen| ==> gen'[i] == gen[i];
    assert gen'[..|gen'| - 1] == gen && StageOf(gen'[|gen'| - 1].1) == stage;
    if Truthy(stage) {
      forall i | 0 <= i < |gen| && gen[i].1.Map? && Truthy(GetOr(gen[i].1.entries, "stage", Null))
        ensures In(GetOr(gen[i].1.entries, "stage", Null), stages') == Ok(true)
      {
        AddStageKeeps(stages, stage, GetOr(gen[i].1.entries, "stage", Null));
      }
    }
  }

  /** One round of the worklist loop: the job is fetched with its default
      stage, stripped, its stage recorded, and its needs that are not yet
      generated become pending. */
  method Visit(config: Dict, reserved: set<string>, ghost config0: Dict, goals: seq<string>,
               gen: Dict, needed: set<string>, ghost stages0: Value, stages: Value, name: string)
    returns (r: Result<(Dict, Dict, set<string>, Value), ConfigError>)
    requires GenState(config0, reserved, goals, stages0, config, gen, needed, stages)
    requires name in needed
    ensures r.Ok? ==> GenState(config0, reserved, goals, stages0, r.value.0, r.value.1, r.value.2, r.value.3)
    ensures r.Ok? ==> Keys(r.value.1) == Keys(gen) + [name]
  {
    var got := GetJob(config, reserved, name);
    if got.Err? {
      return Err(got.error);
    }
    assert name != "stages" && name !in Keys(gen);
    assert Get(config, name) == Get(config0, name);
    var job := StripJob(got.value.1, STRIPPED);
    assert job == Generated(config0, name);
    var config' := Set(got.value.0, name, Map(job));
    var added := JobStage(stages, job);
    if added.Err? {
      return Err(added.error);
    }
    var newStages := added.value;
    // the configuration's `stages` entry is the very list being extended
    config' := SetStages(config', newStages);
    StoreStep(config0, reserved, config, gen, stages0, stages, name, got.value.0, job, newStages);
    var gen' := gen + [(name, Map(job))];
    var pending := Enqueue(config0, reserved, goals, gen, needed, name, job);
    if pending.Err? {
      return Err(pending.error);
    }
    return Ok((config', gen', pending.value, newStages));
  }

  /** The end of a round: the job's needs that are not yet generated join
      the pending names; a malformed `needs` entry is an error. */
  method Enqueue(ghost config0: Dict, reserved: set<string>, goals: seq<string>, gen: Dict,
                 needed: set<string>, name: string, job: Dict)
    returns (r: Result<set<string>, ConfigError>)
    requires GenWork(config0, goals, gen, needed) && name in needed
    requires IsJob(config0, reserved, name) && job == Generated(config0, name)
    ensures r.Err? <==> Needs(job).Err?
    ensures r.Ok? ==> GenWork(config0, goals, gen + [(name, Map(job))], r.value)
  {
    var needs := Needs(job);
    if needs.Err? {
      return Err(needs.error);
    }
    var pending := AddPending(needed - {name}, needs.value, Keys(gen) + [name]);
    NeedsInUniverse(config0, reserved, name, job);
    NeedListOf(job);
    WorkStep(config0, goals, gen, needed, name, Map(job), needs.value, pending);
    return Ok(pending);
  }

  /** The `for item in needs` loop: each needed name not yet generated
      becomes pending. */
  method AddPending(pending: set<string>, ns: seq<string>, generated: seq<string>) returns (p: set<string>)
    ensures forall s :: s in p <==> s in pending || (s in ns && s !in generated)
  {
    p := pending;
    for i := 0 to |ns|
      invariant forall s :: s in p <==> s in pending || (s in ns[..i] && s !in generated)
    {
      assert ns[..i + 1] == ns[..i] + [ns[i]];
      if ns[i] !in generated {
        p := p + {ns[i]};
      }
    }
    assert ns[..|ns|] == ns;
  }

  /** The state before the first round: nothing generated, the goals
      pending and the stages as the configuration gives them. */
  lemma GenStart(config0: Dict, reserved: set<string>, goals: seq<string>)
    requires "stages" in reserved && WellFormed(config0)
    ensures var stages := GetOr(config0, "stages", List([]));
            GenState(config0, reserved, goals, stages, config0, [], Elems(goals), stages)
  {
  }

  /** With nothing left pending, the generated jobs contain the goals and
      every job any of them needs. */
  lemma GenDone(config0: Dict, reserved: set<string>, goals: seq<string>, stages0: Value,
                config: Dict, gen: Dict, stages: Value)
    requires GenState(config0, reserved, goals, stages0, config, gen, {}, stages)
    ensures forall g :: g in goals ==> g in Keys(gen)
    ensures forall i :: 0 <= i < |gen| ==> forall s :: s in NeedList(gen[i].1) ==> s in Keys(gen)
    ensures "stages" !in Keys(gen)
  {
    StagesNotGenerated(config0, reserved, gen);
  }

  /** Generating one more job brings the loop closer to its end: the
      generated names are drawn from the goals and the names needed
      anywhere in the configuration. */
  lemma GenProgress(universe: set<string>, gen: Dict, name: string)
    requires forall n :: n in Keys(gen) ==> n in universe
    requires name in universe && name !in Keys(gen)
    ensures |universe - Elems(Keys(gen) + [name])| < |universe - Elems(Keys(gen))|
  {
    Progress(universe, Elems(Keys(gen)), Elems(Keys(gen) + [name]));
  }

  /** The output: the generated jobs, then the stages as a list when there
      are any. */
  function WithStages(gen: Dict, stages: Value): (r: Result<Dict, ConfigError>)
    requires "stages" !in Keys(gen)
    ensures r.Ok? ==> JobPart(r.value) == gen
    ensures r.Ok? ==> ("stages" in Keys(r.value) <==> Truthy(stages))
    ensures r.Ok? && stages.List? && Truthy(stages) ==> Get(r.value, "stages") == Some(stages)
    ensures r.Ok? ==> forall n :: n != "stages" ==> Get(r.value, n) == Get(gen, n)
    ensures r.Err? <==> Truthy(stages) && Iterate(stages).Err?
    ensures WellFormed(gen) && r.Ok? ==> WellFormed(r.value)
  {
    if !Truthy(stages) then
      assert gen != [] ==> gen[|gen| - 1].0 in Keys(gen);
      Ok(gen)
    else
      var items :- Py(Iterate(stages));
      var out := gen + [("stages", List(items))];
      forall n {
        GetSnoc(gen, "stages", List(items), n);
      }
      assert out[..|out| - 1] == gen;
      assert WellFormed(gen) ==> WellFormed(out) by {
        if WellFormed(gen) {
          WellFormedSnoc(gen, "stages", List(items));
        }
      }
      Ok(out)
  }

  /** What a generated pipeline promises, for the configuration config0 it
      was generated from and the configuration config the loader holds
      afterwards. */
  ghost predicate Pipeline(config0: Dict, reserved: set<string>, goals: seq<string>, config: Dict, out: Dict)
  {
    WellFormed(out) &&
    PipelineJobs(config0, reserved, goals, JobPart(out)) &&
    PipelineConfig(config0, config, JobPart(out), out) &&
    PipelineStages(config0, config, JobPart(out), out)
  }

  /** Every goal and, transitively, every job a generated job needs is
      generated; each generated job is a job of config0 with its default
      stage and without its selection keys, reached from the goals. */
  ghost predicate PipelineJobs(config0: Dict, reserved: set<string>, goals: seq<string>, jobs: Dict)
  {
    GenJobs(config0, reserved, jobs) &&
    (forall g :: g in goals ==> g in Keys(jobs)) &&
    (forall i :: 0 <= i < |jobs| ==> forall s :: s in NeedList(jobs[i].1) ==> s in Keys(jobs)) &&
    Supported(jobs, goals)
  }

  /** The loader holds the generated jobs as output, and nothing else
      changed but its `stages` entry. */
  ghost predicate PipelineConfig(config0: Dict, config: Dict, jobs: Dict, out: Dict)
  {
    Keys(config) == Keys(config0) &&
    (forall n :: n in Keys(jobs) ==> Get(config, n) == Get(out, n)) &&
    (forall n :: n !in Keys(jobs) && n != "stages" ==> Get(config, n) == Get(config0, n))
  }

  /** A list of stages is output exactly when it is not empty, and is then
      the configured stages followed by each new job stage once, in the
      order the jobs were generated; it is the loader's own `stages` entry
      when it has one, and holds every generated job's stage. */
  ghost predicate PipelineStages(config0: Dict, config: Dict, jobs: Dict, out: Dict)
  {
    var stages0 := GetOr(config0, "stages", List([]));
    (stages0.List? ==>
       var items := stages0.items + NewStages(jobs, stages0.items);
       ("stages" in Keys(out) <==> items != []) &&
       ("stages" in Keys(out) ==> Get(out, "stages") == Some(List(items)))) &&
    (stages0.List? && stages0.items != [] ==> "stages" in Keys(out)) &&
    (stages0.List? && "stages" in Keys(out) ==>
       var stages := Get(out, "stages").value;
       stages.List? && stages0.items <= stages.items &&
       Get(config, "stages") == (if "stages" in Keys(config0) then Some(stages) else None) &&
       forall i :: 0 <= i < |jobs| && jobs[i].1.Map? && Truthy(GetOr(jobs[i].1.entries, "stage", Null)) ==>
         GetOr(jobs[i].1.entries, "stage", Null) in stages.items)
  }

  /** The loop's invariant with nothing pending yields a pipeline. */
  lemma GenOutput(config0: Dict, reserved: set<string>, goals: seq<string>, stages0: Value,
                  config: Dict, gen: Dict, stages: Value)
    requires GenState(config0, reserved, goals, stages0, config, gen, {}, stages)
    requires stages0 == GetOr(config0, "stages", List([]))
    requires "stages" !in Keys(gen) && WithStages(gen, stages).Ok?
    ensures Pipeline(config0, reserved, goals, config, WithStages(gen, stages).value)
  {
    var out := WithStages(gen, stages).value;
    OutJobs(config0, reserved, goals, gen);
    OutConfig(config0, reserved, config, gen, stages, out);
    OutStages(config0, gen, stages0, stages, config, out);
  }

  /** With nothing pending, the generated jobs are closed under needs. */
  lemma OutJobs(config0: Dict, reserved: set<string>, goals: seq<string>, gen: Dict)
    requires GenJobs(config0, reserved, gen) && GenWork(config0, goals, gen, {})
    ensures PipelineJobs(config0, reserved, goals, gen)
  {
  }

  /** The loader holds what was output for each generated job. */
  lemma OutConfig(config0: Dict, reserved: set<string>, config: Dict, gen: Dict, stages: Value, out: Dict)
    requires GenConfig(config0, reserved, config, gen, stages)
    requires "stages" !in Keys(gen) && WithStages(gen, stages) == Ok(out)
    ensures PipelineConfig(config0, config, gen, out)
  {
    forall n | n in Keys(gen)
      ensures Get(config, n) == Get(out, n)
    {
      assert n != "stages";
    }
  }

  /** The output stages are the list the loop extended. */
  lemma OutStages(config0: Dict, gen: Dict, stages0: Value, stages: Value, config: Dict, out: Dict)
    requires GenStages(gen, stages0, stages) && stages0 == GetOr(config0, "stages", List([]))
    requires Get(config, "stages") == (if "stages" in Keys(config0) then Some(stages) else None)
    requires "stages" !in Keys(gen) && WithStages(gen, stages) == Ok(out)
    ensures PipelineStages(config0, config, gen, out)
  {
    if stages0.List? && "stages" in Keys(out) {
      assert Truthy(stages) && stages.List?;
      assert Get(out, "stages") == Some(stages);
    }
  }

  /** The worklist loop of generate_pipeline_yaml on the loader's
      configuration: the output and the configuration as updated. */
  method GenerateFrom(config0: Dict, reserved: set<string>, goals: seq<string>)
    returns (r: Result<(Dict, Dict), ConfigError>)
    requires "stages" in reserved && WellFormed(config0)
    ensures r.Ok? ==> Pipeline(config0, reserved, goals, r.value.0, r.value.1)
  {
    var config := config0;
    var stages := GetOr(config, "stages", List([]));
    ghost var stages0 := stages;
    var gen: Dict := [];
    var needed := Elems(goals);
    ghost var universe := Elems(goals) + NeedUniverse(config0);
    GenStart(config0, reserved, goals);
    while needed != {}
      invariant GenState(config0, reserved, goals, stages0, config, gen, needed, stages)
      decreases |universe - Elems(Keys(gen))|
    {
      var name :| name in needed;
      var v := Visit(config, reserved, config0, goals, gen, needed, stages0, stages, name);
      if v.Err? {
        return Err(v.error);
      }
      GenProgress(universe, gen, name);
      config, gen, needed, stages := v.value.0, v.value.1, v.value.2, v.value.3;
    }
    GenDone(config0, reserved, goals, stages0, config, gen, stages);
    var out := WithStages(gen, stages);
    if out.Err? {
      return Err(out.error);
    }
    GenOutput(config0, reserved, goals, stages0, config, gen, stages);
    return Ok((config, out.value));
  }

  /** generate_pipeline_yaml: the goals and every job they need, generated
      as `Pipeline` describes. The loader's configuration is updated as
      Python's dictionaries are updated in place: every generated job is
      stored back in its generated form and its `stages` entry holds the
      extended list. */
  method GeneratePipeline(loader: Loader, reserved: set<string>, goals: seq<string>)
    returns (r: Result<Dict, ConfigError>)
    requires "stages" in reserved && WellFormed(loader.config)
    modifies loader
    ensures loader.jobSources == old(loader.jobSources)
    ensures r.Ok? ==> Pipeline(old(loader.config), reserved, goals, loader.config, r.value)
  {
    var res := GenerateFrom(loader.config, reserved, goals);
    if res.Err? {
      return Err(res.error);
    }
    loader.config := res.value.0;
    return Ok(res.value.1);
  }
}
