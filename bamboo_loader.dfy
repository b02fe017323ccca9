/** Loading a Bamboo plan document into plan, stage and job objects: the
    stages in document order, one job per distinct name the stages list,
    each job read from the document's own top-level key; and the loader
    that keeps only the plans that have jobs. */
module BambooLoader {
  import opened Wrappers
  import opened Yaml

  /** A failed `assert` in the loader, or an exception Python raises on a
      value of the wrong shape. */
  datatype Fault = AssertionFailed | Raised(error: PyError)

  /** What a loaded job holds. */
  datatype JobRec = JobRec(name: string, key: Value, artifacts: Value,
                           artifactSubscriptions: Value, requirements: Value, tasks: Value)

  /** What a loaded stage holds. */
  datatype StageRec = StageRec(name: string, jobs: Value, final: Value, manual: Value)

  /** What a loaded plan holds; jobs is the jobs dictionary in insertion
      order. */
  datatype PlanRec = PlanRec(key: Value, projectKey: Value, name: Value, stages: seq<StageRec>,
                             jobs: seq<(string, JobRec)>, repos: Value)

  /** The value `d.get(k, default)` gives: the entry when there is one,
      else the default. */
  predicate FromKey(d: Dict, k: string, default: Value, v: Value) {
    (k in Keys(d) ==> Some(v) == Get(d, k)) && (k !in Keys(d) ==> v == default)
  }

  // ---------------------------------------------------------------------
  // Dictionaries of loaded objects

  /** The keys of a dictionary, in order. */
  function Names<V>(t: seq<(string, V)>): (ns: seq<string>)
    ensures |ns| == |t| && forall i :: 0 <= i < |t| ==> ns[i] == t[i].0
  {
    if t == [] then [] else [t[0].0] + Names(t[1..])
  }

  /** `d[k] = v`: an existing key keeps its place and takes the new value,
      a new key goes last. */
  function Put<V>(t: seq<(string, V)>, k: string, v: V): (r: seq<(string, V)>)
    ensures Names(r) == if k in Names(t) then Names(t) else Names(t) + [k]
    ensures forall i :: 0 <= i < |r| ==> r[i].1 == if r[i].0 == k then v else t[i].1
  {
    if k in Names(t) then
      seq(|t|, i requires 0 <= i < |t| => if t[i].0 == k then (k, v) else t[i])
    else t + [(k, v)]
  }

  /** The values of a dictionary, in order. */
  function Values<V>(t: seq<(string, V)>): (vs: seq<V>)
    ensures |vs| == |t| && forall i :: 0 <= i < |t| ==> vs[i] == t[i].1
  {
    if t == [] then [] else [t[0].1] + Values(t[1..])
  }

  /** Putting into a dictionary without repeated keys keeps it so. */
  lemma PutDistinct<V>(t: seq<(string, V)>, k: string, v: V)
    requires Distinct(Names(t))
    ensures Distinct(Names(Put(t, k, v)))
  {
    if k !in Names(t) {
      var ns := Names(t) + [k];
      forall i, j | 0 <= i < j < |ns| ensures ns[i] != ns[j] {
        if j == |ns| - 1 {
          assert ns[i] in Names(t);
        }
      }
    }
  }

  // ---------------------------------------------------------------------
  // What loading computes

  /** `len(v)`: mappings, lists and strings have one; anything else raises. */
  function Len(v: Value): (n: Option<nat>)
    ensures n.Some? <==> v.Map? || v.List? || v.Str?
  {
    match v
    case Map(entries) => Some(|entries|)
    case List(items) => Some(|items|)
    case Str(s) => Some(|s|)
    case _ => None
  }

  /** `for x in v`, with the TypeError of a value that cannot be iterated. */
  function Iter(v: Value): (r: Result<seq<Value>, Fault>)
    ensures r.Ok? <==> Iterate(v).Ok?
    ensures r.Ok? ==> r.value == Iterate(v).value
    ensures r.Err? ==> r.error == Raised(TypeError)
  {
    match Iterate(v)
    case Ok(xs) => Ok(xs)
    case Err(e) => Err(Raised(e))
  }

  /** BamJob.load on the job called name: the key, or None; the artifacts,
      artifact subscriptions, requirements and tasks, or empty lists; data
      other than a mapping has no `get`. */
  function LoadJob(name: string, data: Value): (r: Result<JobRec, Fault>)
  {
    if !data.Map? then Err(Raised(AttributeError))
    else
      var d := data.entries;
      Ok(JobRec(name, GetOr(d, "key", Null), GetOr(d, "artifacts", List([])),
                GetOr(d, "artifact-subscriptions", List([])), GetOr(d, "requirements", List([])),
                GetOr(d, "tasks", List([]))))
  }

  /** A job loads from a mapping only; each field is its key's value, or
      its default when the key is absent. */
  lemma JobDefaults(name: string, data: Value)
    ensures var r := LoadJob(name, data);
            (r.Ok? <==> data.Map?)
            && (r.Err? ==> r.error == Raised(AttributeError))
            && (r.Ok? ==> r.value.name == name
                          && FromKey(data.entries, "key", Null, r.value.key)
                          && FromKey(data.entries, "artifacts", List([]), r.value.artifacts)
                          && FromKey(data.entries, "artifact-subscriptions", List([]), r.value.artifactSubscriptions)
                          && FromKey(data.entries, "requirements", List([]), r.value.requirements)
                          && FromKey(data.entries, "tasks", List([]), r.value.tasks))
  {
  }

  /** BamStage.load on the stage called name: its jobs, or none; final and
      manual, or False; data other than a mapping has no `get`. */
  function LoadStage(name: string, data: Value): (r: Result<StageRec, Fault>)
  {
    if !data.Map? then Err(Raised(AttributeError))
    else
      var d := data.entries;
      Ok(StageRec(name, GetOr(d, "jobs", List([])), GetOr(d, "final", Bool(false)),
                  GetOr(d, "manual", Bool(false))))
  }

  /** A stage loads from a mapping only; its jobs are its key's value or
      none, final and manual their keys' values or False. */
  lemma StageDefaults(name: string, data: Value)
    ensures var r := LoadStage(name, data);
            (r.Ok? <==> data.Map?)
            && (r.Err? ==> r.error == Raised(AttributeError))
            && (r.Ok? ==> r.value.name == name
                          && FromKey(data.entries, "jobs", List([]), r.value.jobs)
                          && FromKey(data.entries, "final", Bool(false), r.value.final)
                          && FromKey(data.entries, "manual", Bool(false), r.value.manual))
  {
  }

  /** One item of `stages`: a mapping with a single key, the stage's name,
      whose value the stage is loaded from. Any other length fails the
      assertion. A one-element list yields its element as the name and is
      indexed by it: 0, -1 and False reach the element itself, which has no
      `get`; another integer or True is out of range; anything else cannot
      index a list. A one-character string cannot be indexed by a string. */
  function StageItem(item: Value): (r: Result<StageRec, Fault>)
  {
    match Len(item)
    case None => Err(Raised(TypeError))
    case Some(n) =>
      if n != 1 then Err(AssertionFailed)
      else if item.Map? then LoadStage(item.entries[0].0, item.entries[0].1)
      else if item.List? then
        var x := item.items[0];
        if x == Int(0) || x == Int(-1) || x == Bool(false) then Err(Raised(AttributeError))
        else if x.Int? || x.Bool? then Err(Raised(IndexError))
        else Err(Raised(TypeError))
      else Err(Raised(TypeError))
  }

  /** A one-element list never makes a stage: indexing it by its element
      reaches a value without `get` exactly for 0, -1 and False, is out of
      range for any other integer or True, and is refused for any other
      element. */
  lemma SingleListItem(x: Value)
    ensures StageItem(List([x])).Err?
    ensures StageItem(List([x])) == Err(Raised(AttributeError)) <==> x == Int(0) || x == Int(-1) || x == Bool(false)
    ensures StageItem(List([x])) == Err(Raised(IndexError)) <==> (x.Int? && x.i != 0 && x.i != -1) || x == Bool(true)
    ensures StageItem(List([x])) == Err(Raised(TypeError)) <==> !x.Int? && !x.Bool?
  {
    assert Len(List([x])) == Some(1);
  }

  /** Only a single-key mapping makes a stage, named by its key; an item of
      another length fails the assertion, one without a length raises. */
  lemma StageItemShape(item: Value)
    ensures var r := StageItem(item);
            (r.Ok? ==> item.Map? && |item.entries| == 1 && r.value.name == item.entries[0].0
                       && LoadStage(item.entries[0].0, item.entries[0].1) == r)
            && (Len(item).Some? && Len(item).value != 1 ==> r == Err(AssertionFailed))
            && (Len(item).None? ==> r == Err(Raised(TypeError)))
  {
    if StageItem(item).Ok? {
      StageDefaults(item.entries[0].0, item.entries[0].1);
    }
  }

  /** The first loop of BamPlan.load: one stage per item, in order. */
  function StageList(items: seq<Value>): (r: Result<seq<StageRec>, Fault>)
  {
    if items == [] then Ok([])
    else
      var stages :- StageList(items[..|items| - 1]);
      var s :- StageItem(items[|items| - 1]);
      Ok(stages + [s])
  }

  /** When the loop succeeds there is one stage per item, item i's stage
      at position i. */
  lemma {:induction false} StageListItems(items: seq<Value>)
    requires StageList(items).Ok?
    ensures var stages := StageList(items).value;
            |stages| == |items| && forall i :: 0 <= i < |items| ==> StageItem(items[i]) == Ok(stages[i])
    decreases |items|
  {
    if items != [] {
      var init := items[..|items| - 1];
      StageListItems(init);
      assert forall i :: 0 <= i < |init| ==> items[i] == init[i];
    }
  }

  /** Item i is the first of the items that fails, with fault e. */
  predicate FirstFaultAt(items: seq<Value>, i: int, e: Fault) {
    0 <= i < |items| && StageItem(items[i]) == Err(e)
    && forall k :: 0 <= k < i ==> StageItem(items[k]).Ok?
  }

  /** The load stops at the first item that fails, with that item's fault. */
  lemma {:induction false} StageListFirstFault(items: seq<Value>)
    requires StageList(items).Err?
    ensures exists i :: FirstFaultAt(items, i, StageList(items).error)
    decreases |items|
  {
    var init := items[..|items| - 1];
    var e := StageList(items).error;
    if StageList(init).Err? {
      assert StageList(init).error == e;
      StageListFirstFault(init);
      var i :| FirstFaultAt(init, i, e);
      assert forall k :: 0 <= k <= i ==> items[k] == init[k];
      assert FirstFaultAt(items, i, e);
    } else {
      var i := |items| - 1;
      assert StageItem(items[i]) == Err(e);
      StageListItems(init);
      assert forall k :: 0 <= k < i ==> items[k] == init[k];
      assert FirstFaultAt(items, i, e);
    }
  }

  /** Once a prefix fails, the whole list fails with the same fault. */
  lemma {:induction false} StageListStops(items: seq<Value>, n: nat)
    requires n <= |items| && StageList(items[..n]).Err?
    ensures StageList(items) == StageList(items[..n])
    decreases |items|
  {
    if n < |items| {
      var init := items[..|items| - 1];
      assert init[..n] == items[..n];
      StageListStops(init, n);
    } else {
      assert items[..n] == items;
    }
  }

  /** `jobname in data`, then `data.get(jobname)` loaded as the job of that
      name: an unhashable name raises, a name that is not a top-level key
      fails the assertion. */
  function JobOf(data: Dict, jobname: Value): (r: Result<JobRec, Fault>)
  {
    match In(jobname, Map(data))
    case Err(e) => Err(Raised(e))
    case Ok(found) =>
      if !found then Err(AssertionFailed)
      else LoadJob(jobname.s, Get(data, jobname.s).value)
  }

  /** A job is found only under a string that is a top-level key holding
      a mapping, and is named by it; an unhashable name raises, any other
      name that is not a key fails the assertion. */
  lemma JobOfShape(data: Dict, jobname: Value)
    ensures var r := JobOf(data, jobname);
            (r.Ok? <==> jobname.Str? && jobname.s in Keys(data) && Get(data, jobname.s).value.Map?)
            && (r.Ok? ==> r.value.name == jobname.s && LoadJob(jobname.s, Get(data, jobname.s).value) == r)
            && ((jobname.List? || jobname.Map?) ==> r == Err(Raised(TypeError)))
            && (!(jobname.List? || jobname.Map?) && !(jobname.Str? && jobname.s in Keys(data)) ==>
                  r == Err(AssertionFailed))
  {
    if jobname.Str? && jobname.s in Keys(data) {
      JobDefaults(jobname.s, Get(data, jobname.s).value);
    }
  }

  /** The inner loop of the second loop of BamPlan.load: each name's job
      put into the jobs dictionary, in order. */
  function AddJobs(data: Dict, table: seq<(string, JobRec)>, names: seq<Value>): (r: Result<seq<(string, JobRec)>, Fault>)
  {
    if names == [] then Ok(table)
    else
      var t :- AddJobs(data, table, names[..|names| - 1]);
      var job :- JobOf(data, names[|names| - 1]);
      Ok(Put(t, job.name, job))
  }

  /** The second loop of BamPlan.load: the jobs of each stage in turn; a
      stage's jobs that cannot be iterated raise. */
  function JobsOf(data: Dict, stages: seq<StageRec>): (r: Result<seq<(string, JobRec)>, Fault>)
  {
    if stages == [] then Ok([])
    else
      var t :- JobsOf(data, stages[..|stages| - 1]);
      var names :- Iter(stages[|stages| - 1].jobs);
      AddJobs(data, t, names)
  }

  /** BamPlan.load on a fresh plan: the `plan` section's key, project key
      and name (None when absent), the stages, the jobs, and the
      repositories (none when absent). */
  function PlanOf(data: Value): (r: Result<PlanRec, Fault>)
    ensures r.Ok? ==> data.Map? && GetOr(data.entries, "plan", Map([])).Map?
  {
    if !data.Map? then Err(Raised(AttributeError))
    else
      var section := GetOr(data.entries, "plan", Map([]));
      if !section.Map? then Err(Raised(AttributeError))
      else
        var body :- PlanBody(data.entries);
        Ok(PlanRec(GetOr(section.entries, "key", Null), GetOr(section.entries, "project-key", Null),
                   GetOr(section.entries, "name", Null), body.0, body.1,
                   GetOr(data.entries, "repositories", List([]))))
  }

  /** The two loops of BamPlan.load: the stages, then the jobs. */
  function PlanBody(data: Dict): (r: Result<(seq<StageRec>, seq<(string, JobRec)>), Fault>)
  {
    var items :- Iter(GetOr(data, "stages", List([])));
    var stages :- StageList(items);
    var jobs :- JobsOf(data, stages);
    Ok((stages, jobs))
  }

  // ---------------------------------------------------------------------
  // What a loaded plan satisfies

  /** The job names a stage lists: what iterating its `jobs` gives, or
      none when it cannot be iterated. */
  function Listed(stage: StageRec): (names: seq<Value>)
    ensures Iterate(stage.jobs).Ok? ==> names == Iterate(stage.jobs).value
    ensures stage.jobs.List? ==> names == stage.jobs.items
  {
    match Iterate(stage.jobs)
    case Ok(xs) => xs
    case Err(_) => []
  }

  /** The job names the stages list, stage by stage, in order. */
  function StageJobNames(stages: seq<StageRec>): (names: seq<Value>)
  {
    if stages == [] then []
    else StageJobNames(stages[..|stages| - 1]) + Listed(stages[|stages| - 1])
  }

  /** A name is among the stages' names exactly when some stage lists it. */
  lemma {:induction false} StageJobNamesMembers(stages: seq<StageRec>)
    ensures forall x :: x in StageJobNames(stages) <==> exists i :: 0 <= i < |stages| && x in Listed(stages[i])
    decreases |stages|
  {
    if stages != [] {
      var init := stages[..|stages| - 1];
      StageJobNamesMembers(init);
      assert forall i :: 0 <= i < |init| ==> init[i] == stages[i];
    }
  }

  /** What the jobs dictionary satisfies: no name twice, and each entry is
      the job loaded from the document's key of that name. */
  predicate JobTableOk(data: Dict, t: seq<(string, JobRec)>) {
    Distinct(Names(t)) && forall i :: 0 <= i < |t| ==> JobOf(data, Str(t[i].0)) == Ok(t[i].1)
  }

  /** Adding jobs keeps the table sound, every name added is a top-level
      key holding a mapping, and the table's names are the old ones and
      the new. */
  lemma {:induction false} AddJobsFacts(data: Dict, table: seq<(string, JobRec)>, names: seq<Value>)
    requires JobTableOk(data, table) && AddJobs(data, table, names).Ok?
    ensures var t := AddJobs(data, table, names).value;
            JobTableOk(data, t)
            && (forall x :: x in names ==> JobOf(data, x).Ok?)
            && (forall s :: s in Names(t) <==> s in Names(table) || Str(s) in names)
    decreases |names|
  {
    if names != [] {
      var init := names[..|names| - 1];
      AddJobsFacts(data, table, init);
      AddJobsLast(data, table, names);
    }
  }

  /** The step of AddJobsFacts: the last name is loaded and put into the
      table the others built. */
  lemma AddJobsLast(data: Dict, table: seq<(string, JobRec)>, names: seq<Value>)
    requires names != [] && AddJobs(data, table, names).Ok?
    requires var t0 := AddJobs(data, table, names[..|names| - 1]);
             t0.Ok? && JobTableOk(data, t0.value)
             && (forall s :: s in Names(t0.value) <==> s in Names(table) || Str(s) in names[..|names| - 1])
    ensures var t := AddJobs(data, table, names).value;
            JobTableOk(data, t)
            && JobOf(data, names[|names| - 1]).Ok?
            && (forall s :: s in Names(t) <==> s in Names(table) || Str(s) in names)
  {
    var init := names[..|names| - 1];
    var x := names[|names| - 1];
    var t0 := AddJobs(data, table, init).value;
    var job := JobOf(data, x).value;
    JobOfShape(data, x);
    assert AddJobs(data, table, names).value == Put(t0, job.name, job);
    assert x == Str(job.name);
    PutTableOk(data, t0, job);
    assert forall y :: y in names <==> y in init || y == x;
  }

  /** Putting a job loaded from the document into a sound table keeps it
      sound. */
  lemma PutTableOk(data: Dict, t: seq<(string, JobRec)>, job: JobRec)
    requires JobTableOk(data, t) && JobOf(data, Str(job.name)) == Ok(job)
    ensures JobTableOk(data, Put(t, job.name, job))
  {
    var u := Put(t, job.name, job);
    PutDistinct(t, job.name, job);
    forall i | 0 <= i < |u| ensures JobOf(data, Str(u[i].0)) == Ok(u[i].1) {
      if u[i].0 != job.name {
        assert Names(u)[i] in Names(t);
        assert i < |t| && u[i].0 == t[i].0;
      }
    }
  }

  /** Adding two runs of names is adding the first, then the second. */
  lemma {:induction false} AddJobsAppend(data: Dict, table: seq<(string, JobRec)>, a: seq<Value>, b: seq<Value>)
    requires AddJobs(data, table, a).Ok?
    ensures AddJobs(data, table, a + b) == AddJobs(data, AddJobs(data, table, a).value, b)
    decreases |b|
  {
    if b == [] {
      assert a + b == a;
    } else {
      var b0 := b[..|b| - 1];
      assert (a + b)[..|a + b| - 1] == a + b0;
      assert (a + b)[|a + b| - 1] == b[|b| - 1];
      AddJobsAppend(data, table, a, b0);
    }
  }

  /** When the jobs loop succeeds, every stage's jobs could be iterated and
      the jobs dictionary is the listed names' jobs, added in order. */
  lemma {:induction false} JobsOfAddsListed(data: Dict, stages: seq<StageRec>)
    requires JobsOf(data, stages).Ok?
    ensures forall i :: 0 <= i < |stages| ==> Iterate(stages[i].jobs).Ok?
    ensures JobsOf(data, stages) == AddJobs(data, [], StageJobNames(stages))
    decreases |stages|
  {
    if stages != [] {
      var init := stages[..|stages| - 1];
      var last := stages[|stages| - 1];
      JobsOfAddsListed(data, init);
      var t0 := JobsOf(data, init).value;
      assert Iterate(last.jobs).Ok?;
      assert JobsOf(data, stages) == AddJobs(data, t0, Listed(last));
      assert StageJobNames(stages) == StageJobNames(init) + Listed(last);
      AddJobsAppend(data, [], StageJobNames(init), Listed(last));
      assert forall i :: 0 <= i < |init| ==> init[i] == stages[i];
    }
  }

  /** Once a prefix of the names fails, adding them all fails alike. */
  lemma {:induction false} AddJobsStops(data: Dict, table: seq<(string, JobRec)>, names: seq<Value>, n: nat)
    requires n <= |names| && AddJobs(data, table, names[..n]).Err?
    ensures AddJobs(data, table, names) == AddJobs(data, table, names[..n])
    decreases |names|
  {
    if n < |names| {
      var init := names[..|names| - 1];
      assert init[..n] == names[..n];
      AddJobsStops(data, table, init, n);
    } else {
      assert names[..n] == names;
    }
  }

  /** Once the jobs of a prefix of the stages fail, the whole loop fails
      alike. */
  lemma {:induction false} JobsOfStops(data: Dict, stages: seq<StageRec>, n: nat)
    requires n <= |stages| && JobsOf(data, stages[..n]).Err?
    ensures JobsOf(data, stages) == JobsOf(data, stages[..n])
    decreases |stages|
  {
    if n < |stages| {
      var init := stages[..|stages| - 1];
      assert init[..n] == stages[..n];
      JobsOfStops(data, init, n);
    } else {
      assert stages[..n] == stages;
    }
  }

  /** A loaded plan's stages are the `stages` items in document order, each
      a single-key mapping named by its key. */
  lemma StagesInDocumentOrder(data: Value)
    requires PlanOf(data).Ok?
    ensures var items := Iterate(GetOr(data.entries, "stages", List([]))).value;
            var stages := PlanOf(data).value.stages;
            Iterate(GetOr(data.entries, "stages", List([]))).Ok? && |stages| == |items|
            && forall i :: 0 <= i < |items| ==>
                 items[i].Map? && |items[i].entries| == 1 && stages[i].name == items[i].entries[0].0
                 && LoadStage(items[i].entries[0].0, items[i].entries[0].1) == Ok(stages[i])
  {
    var items := Iter(GetOr(data.entries, "stages", List([]))).value;
    assert StageList(items).Ok?;
    StageListItems(items);
    forall i | 0 <= i < |items| ensures items[i].Map? && |items[i].entries| == 1 {
      StageItemShape(items[i]);
    }
  }

  /** A loaded plan's key, project key and name come from the `plan`
      section, None when absent, and its repositories from the document,
      none when absent; a document that is not a mapping, or whose `plan`
      is not one, has no `get`. */
  lemma PlanFields(data: Value)
    ensures !data.Map? || !GetOr(data.entries, "plan", Map([])).Map? ==>
              PlanOf(data) == Err(Raised(AttributeError))
    ensures PlanOf(data).Ok? ==>
              var p := PlanOf(data).value;
              var section := GetOr(data.entries, "plan", Map([])).entries;
              FromKey(section, "key", Null, p.key)
              && FromKey(section, "project-key", Null, p.projectKey)
              && FromKey(section, "name", Null, p.name)
              && FromKey(data.entries, "repositories", List([]), p.repos)
  {
  }

  /** Every job a loaded plan's stages name is a top-level key of the
      document holding a mapping, and the plan holds one job per distinct
      name, each loaded from the key of that name. */
  lemma OneJobPerName(data: Value)
    requires PlanOf(data).Ok?
    ensures var p := PlanOf(data).value;
            var names := StageJobNames(p.stages);
            data.Map?
            && (forall i :: 0 <= i < |p.stages| ==> Iterate(p.stages[i].jobs).Ok?)
            && (forall x :: x in names ==>
                  x.Str? && x.s in Keys(data.entries) && Get(data.entries, x.s).value.Map?)
            && Distinct(Names(p.jobs))
            && (forall s :: s in Names(p.jobs) <==> Str(s) in names)
            && (forall i :: 0 <= i < |p.jobs| ==> JobOf(data.entries, Str(p.jobs[i].0)) == Ok(p.jobs[i].1))
  {
    var p := PlanOf(data).value;
    assert JobsOf(data.entries, p.stages) == Ok(p.jobs);
    JobsOfAddsListed(data.entries, p.stages);
    AddJobsFacts(data.entries, [], StageJobNames(p.stages));
    forall x | x in StageJobNames(p.stages)
      ensures x.Str? && x.s in Keys(data.entries) && Get(data.entries, x.s).value.Map?
    {
      JobOfShape(data.entries, x);
    }
  }

  // ---------------------------------------------------------------------
  // The objects

  /** A Bamboo job. */
  class BamJob {
    var name: string
    var key: Value
    var artifacts: Value
    var artifactSubscriptions: Value
    var requirements: Value
    var tasks: Value

    /** A job of that name with nothing loaded yet. */
    constructor (name: string)
      ensures this.name == name && key == Null && artifacts == List([])
      ensures artifactSubscriptions == List([]) && requirements == List([]) && tasks == List([])
    {
      this.name := name;
      key := Null;
      artifacts := List([]);
      artifactSubscriptions := List([]);
      requirements := List([]);
      tasks := List([]);
    }

    /** The job's fields as a value. */
    function Record(): JobRec
      reads this
    {
      JobRec(name, key, artifacts, artifactSubscriptions, requirements, tasks)
    }

    /** BamJob.load. */
    method Load(data: Value) returns (r: Result<(), Fault>)
      modifies this
      ensures var j := LoadJob(old(name), data);
              (j.Err? ==> r == Err(j.error) && unchanged(this))
              && (j.Ok? ==> r == Ok(()) && Record() == j.value)
    {
      if !data.Map? {
        return Err(Raised(AttributeError));
      }
      key := GetOr(data.entries, "key", Null);
      artifacts := GetOr(data.entries, "artifacts", List([]));
      artifactSubscriptions := GetOr(data.entries, "artifact-subscriptions", List([]));
      requirements := GetOr(data.entries, "requirements", List([]));
      tasks := GetOr(data.entries, "tasks", List([]));
      r := Ok(());
    }
  }

  /** A Bamboo stage. */
  class BamStage {
    var name: string
    var jobs: Value
    var final: Value
    var manual: Value

    /** A stage of that name with no jobs, neither final nor manual. */
    constructor (name: string)
      ensures this.name == name && jobs == List([]) && final == Bool(false) && manual == Bool(false)
    {
      this.name := name;
      jobs := List([]);
      final := Bool(false);
      manual := Bool(false);
    }

    /** The stage's fields as a value. */
    function Record(): StageRec
      reads this
    {
      StageRec(name, jobs, final, manual)
    }

    /** BamStage.load. */
    method Load(data: Value) returns (r: Result<(), Fault>)
      modifies this
      ensures var s := LoadStage(old(name), data);
              (s.Err? ==> r == Err(s.error) && unchanged(this))
              && (s.Ok? ==> r == Ok(()) && Record() == s.value)
    {
      if !data.Map? {
        return Err(Raised(AttributeError));
      }
      jobs := GetOr(data.entries, "jobs", List([]));
      final := GetOr(data.entries, "final", Bool(false));
      manual := GetOr(data.entries, "manual", Bool(false));
      r := Ok(());
    }
  }

  /** The stage objects hold the stage values, one for one. */
  ghost predicate StagesHold(stages: seq<BamStage>, recs: seq<StageRec>)
    reads stages
  {
    |stages| == |recs| && forall i :: 0 <= i < |stages| ==> stages[i].Record() == recs[i]
  }

  /** The job objects hold the job values, under the same names in the same
      order. */
  ghost predicate JobsHold(jobs: seq<(string, BamJob)>, recs: seq<(string, JobRec)>)
    reads Values(jobs)
  {
    |jobs| == |recs| && forall i :: 0 <= i < |jobs| ==> jobs[i].0 == recs[i].0 && jobs[i].1.Record() == recs[i].1
  }

  /** Putting a job object and its value under the same name keeps the
      objects holding the values. */
  lemma PutHolds(jobs: seq<(string, BamJob)>, recs: seq<(string, JobRec)>, name: string, job: BamJob)
    requires JobsHold(jobs, recs)
    ensures JobsHold(Put(jobs, name, job), Put(recs, name, job.Record()))
  {
    assert Names(jobs) == Names(recs);
  }

  /** A Bamboo plan. */
  class BamPlan {
    var name: Value
    var projectKey: Value
    var key: Value
    var stages: seq<BamStage>
    var jobs: seq<(string, BamJob)>
    var repos: Value

    /** A plan with nothing loaded. */
    constructor ()
      ensures name == Null && projectKey == Null && key == Null
      ensures stages == [] && jobs == [] && repos == List([])
    {
      name := Null;
      projectKey := Null;
      key := Null;
      stages := [];
      jobs := [];
      repos := List([]);
    }

    /** The plan's objects hold the plan value. */
    ghost predicate Holds(p: PlanRec)
      reads this, stages, set i | 0 <= i < |jobs| :: jobs[i].1
    {
      key == p.key && projectKey == p.projectKey && name == p.name && repos == p.repos
      && StagesHold(stages, p.stages) && JobsHold(jobs, p.jobs)
    }

    /** BamPlan.load on a plan not loaded before. When it fails the plan is
        left half loaded, as in the source, and is discarded by its caller. */
    method Load(data: Value) returns (r: Result<(), Fault>)
      requires stages == [] && jobs == []
      modifies this
      ensures var p := PlanOf(data);
              (p.Err? ==> r == Err(p.error)) && (p.Ok? ==> r == Ok(()) && Holds(p.value))
    {
      if !data.Map? {
        return Err(Raised(AttributeError));
      }
      var section := GetOr(data.entries, "plan", Map([]));
      if !section.Map? {
        return Err(Raised(AttributeError));
      }
      key := GetOr(section.entries, "key", Null);
      projectKey := GetOr(section.entries, "project-key", Null);
      name := GetOr(section.entries, "name", Null);
      r := LoadBody(data.entries);
      if r.Ok? {
        repos := GetOr(data.entries, "repositories", List([]));
      }
    }

    /** The two loops of BamPlan.load. */
    method LoadBody(data: Dict) returns (r: Result<(), Fault>)
      requires stages == [] && jobs == []
      modifies this`stages, this`jobs
      ensures var b := PlanBody(data);
              (b.Err? ==> r == Err(b.error))
              && (b.Ok? ==> r == Ok(()) && StagesHold(stages, b.value.0) && JobsHold(jobs, b.value.1))
    {
      var items := Iter(GetOr(data, "stages", List([])));
      if items.Err? {
        return Err(items.error);
      }
      r := LoadStages(items.value);
      if r.Err? {
        return;
      }
      r := LoadJobs(data, StageList(items.value).value);
    }

    /** The first loop of BamPlan.load: a stage per item, appended in
        order. */
    method LoadStages(items: seq<Value>) returns (r: Result<(), Fault>)
      requires stages == []
      modifies this`stages
      ensures var s := StageList(items);
              (s.Err? ==> r == Err(s.error)) && (s.Ok? ==> r == Ok(()) && StagesHold(stages, s.value))
    {
      ghost var recs: seq<StageRec> := [];
      var i := 0;
      while i < |items|
        invariant 0 <= i <= |items|
        invariant StageList(items[..i]) == Ok(recs) && StagesHold(stages, recs)
      {
        assert items[..i + 1][..i] == items[..i];
        r := AddStage(items[i], recs);
        if r.Err? {
          StageListStops(items, i + 1);
          return;
        }
        recs := recs + [StageItem(items[i]).value];
        i := i + 1;
      }
      assert items[..i] == items;
      r := Ok(());
    }

    /** The body of the first loop for one item: the stage the item names,
        created, loaded and appended. */
    method AddStage(item: Value, ghost recs: seq<StageRec>) returns (r: Result<(), Fault>)
      requires StagesHold(stages, recs)
      modifies this`stages
      ensures var s := StageItem(item);
              (s.Err? ==> r == Err(s.error) && stages == old(stages))
              && (s.Ok? ==> r == Ok(()) && |stages| == |old(stages)| + 1 && stages[..|old(stages)|] == old(stages)
                            && fresh(stages[|old(stages)|]) && StagesHold(stages, recs + [s.value]))
    {
      var n := Len(item);
      if n.None? || n.value != 1 || !item.Map? {
        return Err(StageItem(item).error);
      }
      var stage := new BamStage(item.entries[0].0);
      var loaded := stage.Load(item.entries[0].1);
      if loaded.Err? {
        return Err(loaded.error);
      }
      stages := stages + [stage];
      r := Ok(());
    }

    /** The second loop of BamPlan.load: for each stage, for each job name
        it lists, the job loaded from the document's key of that name and
        put into the jobs dictionary. */
    method LoadJobs(data: Dict, ghost recs: seq<StageRec>) returns (r: Result<(), Fault>)
      requires jobs == [] && StagesHold(stages, recs)
      modifies this`jobs
      ensures var t := JobsOf(data, recs);
              (t.Err? ==> r == Err(t.error)) && (t.Ok? ==> r == Ok(()) && JobsHold(jobs, t.value))
    {
      ghost var table: seq<(string, JobRec)> := [];
      var i := 0;
      while i < |stages|
        invariant 0 <= i <= |stages| && StagesHold(stages, recs)
        invariant JobsOf(data, recs[..i]) == Ok(table) && JobsHold(jobs, table)
      {
        assert recs[..i + 1][..i] == recs[..i];
        var names := Iter(stages[i].jobs);
        if names.Err? {
          JobsOfStops(data, recs, i + 1);
          return Err(names.error);
        }
        r := AddStageJobs(data, names.value, table);
        if r.Err? {
          JobsOfStops(data, recs, i + 1);
          return;
        }
        table := AddJobs(data, table, names.value).value;
        i := i + 1;
      }
      assert recs[..i] == recs;
      r := Ok(());
    }

    /** The inner loop: one stage's job names, in order. */
    method AddStageJobs(data: Dict, names: seq<Value>, ghost table: seq<(string, JobRec)>) returns (r: Result<(), Fault>)
      requires JobsHold(jobs, table)
      modifies this`jobs
      ensures var t := AddJobs(data, table, names);
              (t.Err? ==> r == Err(t.error)) && (t.Ok? ==> r == Ok(()) && JobsHold(jobs, t.value))
    {
      ghost var current := table;
      var j := 0;
      while j < |names|
        invariant 0 <= j <= |names|
        invariant AddJobs(data, table, names[..j]) == Ok(current) && JobsHold(jobs, current)
      {
        assert names[..j + 1][..j] == names[..j];
        r := AddJob(data, names[j], current);
        if r.Err? {
          AddJobsStops(data, table, names, j + 1);
          return;
        }
        var job := JobOf(data, names[j]).value;
        current := Put(current, job.name, job);
        j := j + 1;
      }
      assert names[..j] == names;
      r := Ok(());
    }

    /** The body of the inner loop for one name: the name checked against
        the document's keys, the job of that name created and loaded, and
        `self.jobs[job.name] = job`. */
    method AddJob(data: Dict, jobname: Value, ghost table: seq<(string, JobRec)>) returns (r: Result<(), Fault>)
      requires JobsHold(jobs, table)
      modifies this`jobs
      ensures var j := JobOf(data, jobname);
              (j.Err? ==> r == Err(j.error) && jobs == old(jobs))
              && (j.Ok? ==> r == Ok(()) && JobsHold(jobs, Put(table, j.value.name, j.value)))
    {
      var found := In(jobname, Map(data));
      if found.Err? || !found.value {
        return Err(JobOf(data, jobname).error);
      }
      var job := new BamJob(jobname.s);
      var loaded := job.Load(Get(data, jobname.s).value);
      if loaded.Err? {
        return Err(loaded.error);
      }
      PutHolds(jobs, table, job.name, job);
      jobs := Put(jobs, job.name, job);
      r := Ok(());
    }
  }

  /** The Bamboo loader's list of plans. */
  class BamLoader {
    var plans: seq<BamPlan>

    constructor ()
      ensures plans == []
    {
      plans := [];
    }

    /** BamLoader.parse_plan: a new plan loaded from the document, kept only
        when it has jobs (a document of project settings has none). */
    method ParsePlan(plandata: Value) returns (r: Result<(), Fault>)
      modifies this`plans
      ensures var p := PlanOf(plandata);
              (p.Err? ==> r == Err(p.error) && plans == old(plans))
              && (p.Ok? && p.value.jobs == [] ==> r == Ok(()) && plans == old(plans))
              && (p.Ok? && p.value.jobs != [] ==>
                    r == Ok(()) && |plans| == |old(plans)| + 1 && plans[..|old(plans)|] == old(plans)
                    && fresh(plans[|old(plans)|]) && plans[|old(plans)|].Holds(p.value))
    {
      var plan := new BamPlan();
      r := plan.Load(plandata);
      if r.Err? {
        return;
      }
      if |plan.jobs| > 0 {
        plans := plans + [plan];
      }
    }
  }
}
