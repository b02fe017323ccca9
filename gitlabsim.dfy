/** The event-driven GitLab simulator (simulator/gitlabsim/sim.py): runners
    that accept jobs by tags and image support, jobs that wait for named
    jobs of their own pipeline, and a server whose tick starts every ready
    job it can place, then jumps time to the next job completion.

    The server keeps its jobs and runners in arenas: a pipeline's jobs carry
    the pipeline's index, and a runner's job list holds job indices. */
module GitlabSim {
  import opened Wrappers

  const RUNNING: string := "running"
  const PENDING: string := "pending"
  const FINISHED: string := "finished"

  // ---------------------------------------------------------------------
  // Runners

  datatype SimRunner = SimRunner(name: string, images: bool, tags: set<string>, concurrent: int,
                                 jobs: seq<nat>, runCount: nat)

  /** SimRunner(...) as constructed: no jobs, nothing run yet. */
  function NewRunner(name: string, images: bool, tags: set<string>, concurrent: int): (r: SimRunner)
    ensures r.jobs == [] && r.runCount == 0
    ensures r.name == name && r.images == images && r.tags == tags && r.concurrent == concurrent
  {
    SimRunner(name, images, tags, concurrent, [], 0)
  }

  /** A runner never holds more jobs than it may run at once. */
  predicate WithinCapacity(r: SimRunner) {
    r.jobs == [] || |r.jobs| <= r.concurrent
  }

  // ---------------------------------------------------------------------
  // Jobs

  datatype SimJob = SimJob(name: string, stage: string, tags: set<string>, image: string,
                           depends: seq<string>, pipeline: nat, duration: nat, remaining: nat,
                           started: Option<int>, finished: Option<int>, done: bool)

  /** SimJob(...) as constructed: nothing run yet. An absent image is "". */
  function NewJob(name: string, stage: string, tags: set<string>, image: string,
                  depends: seq<string>, duration: nat): (j: SimJob)
    ensures Fresh(j) && j.name == name && j.duration == duration && j.depends == depends
    ensures j.tags == tags && j.image == image && j.stage == stage
  {
    SimJob(name, stage, tags, image, depends, 0, duration, duration, None, None, false)
  }

  /** SimJob.clone: a job not yet run with the same description, in no pipeline. */
  function Clone(j: SimJob): (c: SimJob)
    ensures Fresh(c) && SameJob(j.(pipeline := 0), c)
  {
    NewJob(j.name, j.stage, j.tags, j.image, j.depends, j.duration)
  }

  /** Cloning a clone changes nothing. */
  lemma CloneTwice(j: SimJob)
    ensures Clone(Clone(j)) == Clone(j)
  {
  }

  predicate Fresh(j: SimJob) {
    j.remaining == j.duration && j.started.None? && j.finished.None? && !j.done
  }

  /** b is job a further on: same description, same pipeline. */
  predicate SameJob(a: SimJob, b: SimJob) {
    a.name == b.name && a.stage == b.stage && a.tags == b.tags && a.image == b.image &&
    a.depends == b.depends && a.pipeline == b.pipeline && a.duration == b.duration
  }

  /** Python's truthiness of `job.finished`. */
  predicate FinishedSet(j: SimJob) {
    j.finished.Some? && j.finished.value != 0
  }

  /** The states a job can go through: unstarted and untouched, running,
      or done with its finish time recorded. */
  predicate JobOK(j: SimJob) {
    j.remaining <= j.duration &&
    (j.started.None? ==> j.remaining == j.duration && !j.done && j.finished.None?) &&
    (j.started.Some? ==> j.started.value >= 0) &&
    (!j.done ==> j.finished.None?) &&
    (j.remaining == 0 && j.duration > 0 ==> j.done) &&
    (j.done ==> j.started.Some? && j.remaining == 0 && j.duration > 0 &&
                j.finished == Some(j.started.value + j.duration))
  }

  lemma FinishedIsDone(j: SimJob)
    requires JobOK(j)
    ensures FinishedSet(j) <==> j.done
  {
  }

  /** SimRunner.match: room left, every job tag offered, and both the runner
      and the job use images. */
  predicate Match(r: SimRunner, j: SimJob) {
    |r.jobs| < r.concurrent && j.tags <= r.tags && r.images && j.image != ""
  }

  /** SimRunner.start: take job k when it matches. */
  function Start(r: SimRunner, k: nat, j: SimJob): (res: (SimRunner, bool))
    ensures res.1 <==> Match(r, j)
    ensures res.1 ==> res.0.jobs == r.jobs + [k] && res.0.runCount == r.runCount + 1
    ensures !res.1 ==> res.0 == r
    ensures res.0.(jobs := r.jobs, runCount := r.runCount) == r
    ensures WithinCapacity(r) ==> WithinCapacity(res.0)
  {
    if Match(r, j) then (r.(jobs := r.jobs + [k], runCount := r.runCount + 1), true)
    else (r, false)
  }

  /** SimRunner.reset. */
  function Reset(r: SimRunner): (res: SimRunner)
    ensures res.jobs == [] && res.runCount == 0 && WithinCapacity(res)
    ensures forall j: SimJob :: Match(res, j) <==> (0 < r.concurrent && j.tags <= r.tags && r.images && j.image != "")
  {
    r.(jobs := [], runCount := 0)
  }

  /** The jobs of `list` not yet finished. */
  function Unfinished(list: seq<nat>, js: seq<SimJob>): (res: seq<nat>)
    requires forall x :: x in list ==> x < |js|
    ensures forall x :: x in res <==> x in list && !FinishedSet(js[x])
    ensures |res| <= |list|
    ensures (forall x :: x in list ==> !FinishedSet(js[x])) ==> res == list
  {
    if list == [] then []
    else
      assert list[0] in list;
      assert forall x :: x in list[1..] ==> x in list;
      assert forall x :: x in list <==> x == list[0] || x in list[1..];
      var rest := Unfinished(list[1..], js);
      if FinishedSet(js[list[0]]) then rest else [list[0]] + rest
  }

  /** SimRunner.tick: drop the finished jobs. */
  function RunnerTick(r: SimRunner, js: seq<SimJob>): (res: SimRunner)
    requires forall x :: x in r.jobs ==> x < |js|
    ensures res.(jobs := r.jobs) == r
    ensures forall x :: x in res.jobs <==> x in r.jobs && !FinishedSet(js[x])
    ensures WithinCapacity(r) ==> WithinCapacity(res)
  {
    r.(jobs := Unfinished(r.jobs, js))
  }

  /** SimJob.tick(t): count down by t, and record the finish when the
      countdown reaches zero. A job with nothing remaining is untouched. */
  function JobTick(j: SimJob, t: nat): (r: SimJob)
    requires j.started.Some? && t <= j.remaining
    ensures r.remaining == j.remaining - t
    ensures r.done <==> j.done || (j.remaining != 0 && t == j.remaining)
    ensures r.(remaining := j.remaining, done := j.done, finished := j.finished) == j
    ensures JobOK(j) ==> JobOK(r)
  {
    if j.remaining != 0 then
      var left := j.remaining - t;
      if left == 0 then j.(remaining := 0, finished := Some(j.started.value + j.duration), done := true)
      else j.(remaining := left)
    else j
  }

  /** SimJob.state, as written: the two started cases are swapped. */
  function State(j: SimJob): string {
    if j.started.Some? then (if j.remaining == 0 then RUNNING else FINISHED) else PENDING
  }

  /** A job that has run to completion reports "running". */
  lemma StateInverted(j: SimJob)
    requires JobOK(j) && j.done
    ensures State(j) == RUNNING
  {
  }

  /** The evidently intended state: finished once nothing remains. */
  function IntendedState(j: SimJob): (s: string)
    ensures s == FINISHED <==> j.started.Some? && j.remaining == 0
    ensures s == RUNNING <==> j.started.Some? && j.remaining != 0
    ensures s == PENDING <==> j.started.None?
  {
    if j.started.Some? then (if j.remaining == 0 then FINISHED else RUNNING) else PENDING
  }

  lemma IntendedStateDone(j: SimJob)
    requires JobOK(j)
    ensures j.done ==> IntendedState(j) == FINISHED
    ensures j.started.Some? && !j.done && j.remaining > 0 ==> IntendedState(j) == RUNNING
  {
  }

  /** A pipeline job that job i depends on: same pipeline, name listed. */
  predicate DependsOn(js: seq<SimJob>, i: nat, k: nat)
    requires i < |js| && k < |js|
  {
    js[k].pipeline == js[i].pipeline && js[k].name in js[i].depends
  }

  /** SimJob.get_needed: the pipeline's jobs named in `depends` and not yet
      done, in pipeline order. */
  function Needed(js: seq<SimJob>, i: nat, m: nat): (res: seq<nat>)
    requires i < |js| && m <= |js|
    ensures forall k: nat :: k in res <==> k < m && DependsOn(js, i, k) && !js[k].done
  {
    if m == 0 then []
    else Needed(js, i, m - 1) + (if DependsOn(js, i, m - 1) && !js[m - 1].done then [m - 1] else [])
  }

  /** SimJob.ready. */
  predicate Ready(js: seq<SimJob>, i: nat)
    requires i < |js|
  {
    !js[i].done && js[i].started.None? && |Needed(js, i, |js|)| == 0
  }

  /** A job is ready exactly when it is unstarted, not done, and every job
      of its pipeline that it depends on is done. */
  lemma ReadyMeaning(js: seq<SimJob>, i: nat)
    requires i < |js|
    ensures Ready(js, i) <==>
      !js[i].done && js[i].started.None? &&
      forall k :: 0 <= k < |js| && DependsOn(js, i, k) ==> js[k].done
  {
    if !Ready(js, i) && !js[i].done && js[i].started.None? {
      var k := Needed(js, i, |js|)[0];
      assert k in Needed(js, i, |js|);
    }
  }

  /** Readiness survives other jobs finishing. */
  lemma ReadyStays(js: seq<SimJob>, js2: seq<SimJob>, i: nat)
    requires i < |js| == |js2| && Ready(js, i) && js2[i] == js[i]
    requires forall k :: 0 <= k < |js| ==> js2[k].name == js[k].name && js2[k].pipeline == js[k].pipeline
    requires forall k :: 0 <= k < |js| && js[k].done ==> js2[k].done
    ensures Ready(js2, i)
  {
    ReadyMeaning(js, i);
    ReadyMeaning(js2, i);
  }

  // ---------------------------------------------------------------------
  // Pipelines

  datatype Pipeline = Pipeline(jobs: seq<SimJob>) {
    /** Pipeline.add_job. */
    function AddJob(j: SimJob): (p: Pipeline)
      ensures |p.jobs| == |jobs| + 1 && p.jobs[|jobs|] == j && p.jobs[..|jobs|] == jobs
    {
      Pipeline(jobs + [j])
    }
  }

  // ---------------------------------------------------------------------
  // The server

  /** The pipeline's jobs, marked as belonging to pipeline `id`. */
  function Tagged(js: seq<SimJob>, id: nat): (res: seq<SimJob>)
    ensures |res| == |js| && forall k :: 0 <= k < |js| ==> res[k] == js[k].(pipeline := id)
  {
    seq(|js|, k requires 0 <= k < |js| => js[k].(pipeline := id))
  }

  /** Jobs of other pipelines joining the server leave readiness alone. */
  lemma ReadyExtend(js: seq<SimJob>, ext: seq<SimJob>, k: nat)
    requires k < |js| && Ready(js, k)
    requires forall x :: 0 <= x < |ext| ==> ext[x].pipeline != js[k].pipeline
    ensures Ready(js + ext, k)
  {
    var all := js + ext;
    ReadyMeaning(js, k);
    ReadyMeaning(all, k);
    forall x | 0 <= x < |all| && DependsOn(all, k, x)
      ensures all[x].done
    {
      if x < |js| {
        assert DependsOn(js, k, x);
      }
    }
  }

  /** Each runner kept its configuration and only gained jobs at the end of
      its list, one run counted per job gained. */
  ghost predicate RunnersGrew(rs0: seq<SimRunner>, rs: seq<SimRunner>) {
    |rs| == |rs0| &&
    forall r :: 0 <= r < |rs| ==>
      rs[r].(jobs := rs0[r].jobs, runCount := rs0[r].runCount) == rs0[r] &&
      |rs0[r].jobs| <= |rs[r].jobs| && rs[r].jobs[..|rs0[r].jobs|] == rs0[r].jobs &&
      rs[r].runCount - rs0[r].runCount == |rs[r].jobs| - |rs0[r].jobs|
  }

  lemma RunnersGrewStart(rs0: seq<SimRunner>, rs: seq<SimRunner>, r: nat, k: nat, j: SimJob)
    requires RunnersGrew(rs0, rs) && r < |rs|
    ensures RunnersGrew(rs0, rs[r := Start(rs[r], k, j).0])
  {
    var rs2 := rs[r := Start(rs[r], k, j).0];
    assert rs2[r].jobs[..|rs0[r].jobs|] == rs0[r].jobs by {
      assert rs[r].jobs[..|rs0[r].jobs|] == rs0[r].jobs;
    }
  }

  /** No job of S fits any runner. */
  ghost predicate Unplaceable(rs: seq<SimRunner>, js: seq<SimJob>, S: set<nat>) {
    forall k, r :: k in S && 0 <= r < |rs| ==> k < |js| && !Match(rs[r], js[k])
  }

  /** A runner taking a job only makes it harder for the others to fit. */
  lemma UnplaceableStart(rs: seq<SimRunner>, js: seq<SimJob>, js2: seq<SimJob>, S: set<nat>, r: nat, k: nat)
    requires Unplaceable(rs, js, S) && r < |rs| && |js2| == |js| && k < |js|
    requires forall x :: x in S ==> x < |js| && js2[x] == js[x]
    ensures Unplaceable(rs[r := Start(rs[r], k, js[k]).0], js2, S)
  {
  }

  /** The jobs of S started at time t; the others are untouched. */
  ghost predicate StartedAt(js0: seq<SimJob>, js: seq<SimJob>, S: set<nat>, t: int) {
    |js| == |js0| &&
    forall k :: 0 <= k < |js| ==> js[k] == if k in S then js0[k].(started := Some(t)) else js0[k]
  }

  lemma StartedAtStep(js0: seq<SimJob>, js: seq<SimJob>, S: set<nat>, t: int, j: nat)
    requires StartedAt(js0, js, S, t) && j !in S && j < |js|
    ensures StartedAt(js0, js[j := js[j].(started := Some(t))], S + {j}, t)
  {
  }

  // ---------------------------------------------------------------------
  // Server state

  /** The fields of a Server. */
  datatype ServerState = ServerState(time: int, runners: seq<SimRunner>, pipelines: nat, jobs: seq<SimJob>,
                                     ready: set<nat>, running: set<nat>, finished: set<nat>)

  /** What holds at every step of a tick: the three job sets are disjoint
      and in range, started jobs are exactly the running and finished ones,
      the ready set holds ready jobs, and runners stay within capacity and
      hold only running jobs or jobs that have just finished. */
  ghost predicate Consistent(s: ServerState) {
    s.time >= 0 &&
    (forall k :: k in s.ready ==> k < |s.jobs|) &&
    (forall k :: k in s.running ==> k < |s.jobs|) &&
    (forall k :: k in s.finished ==> k < |s.jobs|) &&
    s.ready !! s.running && s.ready !! s.finished && s.running !! s.finished &&
    (forall k :: 0 <= k < |s.jobs| ==> JobOK(s.jobs[k]) && s.jobs[k].pipeline < s.pipelines) &&
    (forall k :: 0 <= k < |s.jobs| && s.jobs[k].started.Some? ==> s.jobs[k].started.value <= s.time) &&
    (forall k :: 0 <= k < |s.jobs| ==> (s.jobs[k].started.Some? <==> k in s.running || k in s.finished)) &&
    (forall k :: k in s.finished ==> s.jobs[k].done) &&
    (forall k :: k in s.ready ==> Ready(s.jobs, k)) &&
    (forall r :: 0 <= r < |s.runners| ==> RunnerOK(s.runners[r], s.jobs, s.running))
  }

  /** A runner within capacity whose jobs are running or have just finished. */
  ghost predicate RunnerOK(rr: SimRunner, js: seq<SimJob>, running: set<nat>) {
    WithinCapacity(rr) && forall x :: x in rr.jobs ==> x < |js| && (x in running || js[x].done)
  }

  /** A runner holding no job that is done. */
  ghost predicate RunnerBusy(rr: SimRunner, js: seq<SimJob>) {
    forall x :: x in rr.jobs ==> x < |js| && !js[x].done
  }

  /** What holds between ticks: besides Consistent, nothing running or on a
      runner is done. */
  ghost predicate Settled(s: ServerState) {
    Consistent(s) &&
    (forall k :: k in s.running ==> !s.jobs[k].done) &&
    (forall r :: 0 <= r < |s.runners| ==> RunnerBusy(s.runners[r], s.jobs))
  }

  /** Every running job sits on some runner. */
  ghost predicate Hosted(s: ServerState) {
    forall k :: k in s.running ==> exists r :: 0 <= r < |s.runners| && k in s.runners[r].jobs
  }

  lemma HostedStart(s: ServerState, j: nat, r: nat)
    requires Hosted(s) && j < |s.jobs| && r < |s.runners| && Match(s.runners[r], s.jobs[j])
    ensures Hosted(StartJobState(s, j, r))
  {
    var s2 := StartJobState(s, j, r);
    forall k | k in s2.running
      ensures exists q :: 0 <= q < |s2.runners| && k in s2.runners[q].jobs
    {
      if k == j {
        assert k in s2.runners[r].jobs;
      } else {
        var q :| 0 <= q < |s.runners| && k in s.runners[q].jobs;
        assert k in s2.runners[q].jobs;
      }
    }
  }

  /** A single runner that takes one job at a time. */
  ghost predicate OneAtATime(s: ServerState) {
    |s.runners| == 1 && s.runners[0].concurrent == 1
  }

  /** With one single-job runner, at most one job runs. */
  lemma OneRunning(s: ServerState)
    requires Consistent(s) && Hosted(s) && OneAtATime(s)
    ensures |s.running| <= 1
  {
    var js := s.runners[0].jobs;
    assert WithinCapacity(s.runners[0]);
    forall k | k in s.running
      ensures k in js
    {
      var r :| 0 <= r < |s.runners| && k in s.runners[r].jobs;
      assert r == 0;
    }
    if s.running != {} {
      var k :| k in s.running;
      assert |js| == 1 && js == [js[0]];
      assert s.running == {js[0]};
    }
  }

  /** The time the jobs have spent running, summed over all jobs. */
  function Worked(js: seq<SimJob>): int {
    if js == [] then 0 else Worked(js[..|js| - 1]) + (js[|js| - 1].duration - js[|js| - 1].remaining)
  }

  /** Moving the jobs of S on by `shift` adds `shift` of work per job. */
  lemma {:induction false} WorkedShift(js0: seq<SimJob>, js: seq<SimJob>, S: set<nat>, shift: nat)
    requires |js| == |js0| && forall k :: k in S ==> k < |js|
    requires forall k :: 0 <= k < |js| ==> Moved(js0[k], js[k], if k in S then shift else 0)
    ensures Worked(js) == Worked(js0) + shift * |S|
    decreases |js|
  {
    if js == [] {
      assert S == {};
    } else {
      var m := |js| - 1;
      var S' := S - {m};
      assert forall k :: 0 <= k < m ==> js[..m][k] == js[k] && js0[..m][k] == js0[k] && (k in S' <==> k in S);
      WorkedShift(js0[..m], js[..m], S', shift);
      var d := if m in S then shift else 0;
      assert Moved(js0[m], js[m], d);
      assert Worked(js) == Worked(js[..m]) + (js[m].duration - js[m].remaining);
      assert Worked(js0) == Worked(js0[..m]) + (js0[m].duration - js0[m].remaining);
      assert |S| == |S'| + (if m in S then 1 else 0) by {
        if m !in S {
          assert S' == S;
        }
      }
      MulStep(shift, |S'|, m in S);
    }
  }

  lemma MulStep(a: nat, b: nat, c: bool)
    ensures a * (b + if c then 1 else 0) == a * b + if c then a else 0
  {
  }

  /** j is j0 moved on by d. */
  predicate Moved(j0: SimJob, j: SimJob, d: nat) {
    j.duration == j0.duration && j.remaining == j0.remaining - d
  }

  /** Once every job has run to completion, the work done is the sum of
      the durations. */
  function TotalDuration(js: seq<SimJob>): int {
    if js == [] then 0 else TotalDuration(js[..|js| - 1]) + js[|js| - 1].duration
  }

  lemma {:induction false} WorkedAllDone(js: seq<SimJob>)
    requires forall k :: 0 <= k < |js| ==> JobOK(js[k]) && js[k].done
    ensures Worked(js) == TotalDuration(js)
    decreases |js|
  {
    if js != [] {
      WorkedAllDone(js[..|js| - 1]);
    }
  }

  function NotDoneOf(js: seq<SimJob>): set<nat> {
    set k | 0 <= k < |js| && !js[k].done
  }

  /** The ready jobs among the first m. */
  function ReadyBelow(js: seq<SimJob>, m: nat): (res: set<nat>)
    requires m <= |js|
    ensures forall k: nat :: k in res <==> k < m && Ready(js, k)
  {
    set k: nat | k < m && Ready(js, k)
  }

  lemma ReadyBelowStep(js: seq<SimJob>, m: nat)
    requires m < |js|
    ensures ReadyBelow(js, m + 1) == ReadyBelow(js, m) + (if Ready(js, m) then {m} else {})
  {
  }

  /** Ready jobs joining the ready set keep a settled state settled. */
  lemma CollectedOK(s: ServerState, R: set<nat>)
    requires Settled(s) && Hosted(s)
    requires forall k :: k in R ==> k < |s.jobs| && Ready(s.jobs, k)
    ensures Settled(s.(ready := s.ready + R)) && Hosted(s.(ready := s.ready + R))
  {
  }

  /** runner r takes ready job j. */
  function StartJobState(s: ServerState, j: nat, r: nat): ServerState
    requires j < |s.jobs| && r < |s.runners|
  {
    s.(runners := s.runners[r := Start(s.runners[r], j, s.jobs[j]).0],
       ready := s.ready - {j}, running := s.running + {j},
       jobs := s.jobs[j := s.jobs[j].(started := Some(s.time))])
  }

  lemma StartJobOK(s: ServerState, j: nat, r: nat)
    requires Settled(s) && j in s.ready && r < |s.runners| && Match(s.runners[r], s.jobs[j])
    ensures Settled(StartJobState(s, j, r))
  {
    StartReadyOK(s, j, r);
    StartRunnersOK(s, j, r);
  }

  lemma StartReadyOK(s: ServerState, j: nat, r: nat)
    requires Consistent(s) && j in s.ready && r < |s.runners|
    ensures forall k :: k in s.ready - {j} ==> Ready(StartJobState(s, j, r).jobs, k)
  {
    var js2 := StartJobState(s, j, r).jobs;
    forall k | k in s.ready - {j}
      ensures Ready(js2, k)
    {
      ReadyStays(s.jobs, js2, k);
    }
  }

  lemma StartRunnersOK(s: ServerState, j: nat, r: nat)
    requires Settled(s) && j in s.ready && r < |s.runners| && Match(s.runners[r], s.jobs[j])
    ensures forall q :: 0 <= q < |s.runners| ==>
      RunnerOK(StartJobState(s, j, r).runners[q], StartJobState(s, j, r).jobs, s.running + {j}) &&
      RunnerBusy(StartJobState(s, j, r).runners[q], StartJobState(s, j, r).jobs)
  {
  }

  lemma RetireOK(s: ServerState, k: nat)
    requires Consistent(s) && k in s.running && s.jobs[k].done
    ensures Consistent(s.(running := s.running - {k}, finished := s.finished + {k}))
  {
  }

  lemma RunnerTickOK(s: ServerState, r: nat)
    requires Consistent(s) && r < |s.runners|
    ensures Consistent(s.(runners := s.runners[r := RunnerTick(s.runners[r], s.jobs)]))
    ensures forall x :: x in RunnerTick(s.runners[r], s.jobs).jobs ==> !s.jobs[x].done
  {
    forall x | x in s.runners[r].jobs
      ensures FinishedSet(s.jobs[x]) <==> s.jobs[x].done
    {
      FinishedIsDone(s.jobs[x]);
    }
  }

  /** The inner loop of tick's second loop: the first runner that can take
      job j, or |rs| when none can. */
  method FindRunner(rs: seq<SimRunner>, j: SimJob) returns (r: nat)
    ensures r <= |rs|
    ensures forall q :: 0 <= q < r ==> !Match(rs[q], j)
    ensures r < |rs| ==> Match(rs[r], j)
  {
    r := 0;
    while r < |rs| && !Match(rs[r], j)
      invariant 0 <= r <= |rs|
      invariant forall q :: 0 <= q < r ==> !Match(rs[q], j)
    {
      r := r + 1;
    }
  }

  /** Part way through tick's second loop, started from s0 with `pending`
      still to try: the jobs that left the ready set started now on a
      runner, and the ready jobs already tried fit no runner. */
  ghost predicate StartProgress(s0: ServerState, s: ServerState, pending: set<nat>) {
    Settled(s) &&
    s.time == s0.time && s.finished == s0.finished && s.pipelines == s0.pipelines &&
    pending <= s.ready <= s0.ready && s.running == s0.running + (s0.ready - s.ready) &&
    StartedAt(s0.jobs, s.jobs, s0.ready - s.ready, s0.time) &&
    RunnersGrew(s0.runners, s.runners) &&
    Unplaceable(s.runners, s.jobs, s.ready - pending)
  }

  lemma StartProgressPlaced(s0: ServerState, s: ServerState, pending: set<nat>, j: nat, r: nat)
    requires StartProgress(s0, s, pending + {j}) && j !in pending
    requires r < |s.runners| && j < |s.jobs| && Match(s.runners[r], s.jobs[j])
    ensures StartProgress(s0, StartJobState(s, j, r), pending)
  {
    StartJobOK(s, j, r);
    RunnersGrewStart(s0.runners, s.runners, r, j, s.jobs[j]);
    var s2 := StartJobState(s, j, r);
    var tried := s.ready - pending - {j};
    UnplaceableStart(s.runners, s.jobs, s2.jobs, tried, r, j);
    StartedAtStep(s0.jobs, s.jobs, s0.ready - s.ready, s0.time, j);
    assert s0.ready - s2.ready == (s0.ready - s.ready) + {j};
    assert s2.ready - pending == tried;
  }

  lemma StartProgressSkipped(s0: ServerState, s: ServerState, pending: set<nat>, j: nat)
    requires StartProgress(s0, s, pending + {j}) && j !in pending && j < |s.jobs|
    requires forall q :: 0 <= q < |s.runners| ==> !Match(s.runners[q], s.jobs[j])
    ensures StartProgress(s0, s, pending)
  {
    assert s.ready - pending == (s.ready - (pending + {j})) + {j};
  }

  /** The third and fourth loops of tick, from s0 to s: the clock and every
      running job move on by `shift`, the least time any running job has
      left, or by nothing when none runs. */
  ghost predicate Advanced(s0: ServerState, s: ServerState, shift: nat) {
    (forall k :: k in s0.running ==> k < |s0.jobs|) &&
    s == s0.(jobs := s.jobs, time := s0.time + shift) && |s.jobs| == |s0.jobs| &&
    (s0.running == {} ==> shift == 0) &&
    (s0.running != {} ==>
       (exists k :: k in s0.running && s0.jobs[k].remaining == shift) &&
       (forall k :: k in s0.running ==> shift <= s0.jobs[k].remaining)) &&
    (forall k :: 0 <= k < |s.jobs| && k !in s0.running ==> s.jobs[k] == s0.jobs[k]) &&
    (forall k :: k in s0.running ==> s0.jobs[k].started.Some? && s.jobs[k] == JobTick(s0.jobs[k], shift))
  }

  /** The last two loops of tick, from s0 to s: done jobs move from the
      running set to the finished set and every runner drops its finished
      jobs. */
  ghost predicate Retired(s0: ServerState, s: ServerState) {
    (forall r :: 0 <= r < |s0.runners| ==> RunnerOK(s0.runners[r], s0.jobs, s0.running)) &&
    (forall k :: k in s0.running ==> k < |s0.jobs|) &&
    s == s0.(running := s.running, finished := s.finished, runners := s.runners) &&
    s.running == (set k: nat | k in s0.running && !s.jobs[k].done) &&
    s.finished == s0.finished + (set k: nat | k in s0.running && s.jobs[k].done) &&
    |s.runners| == |s0.runners| &&
    forall r :: 0 <= r < |s.runners| ==> s.runners[r] == RunnerTick(s0.runners[r], s.jobs)
  }

  /** The fourth loop of tick: every running job moves on by `shift`. */
  method ShiftJobs(s0: ServerState, shift: nat) returns (s: ServerState)
    requires Consistent(s0)
    requires forall k :: k in s0.running ==> shift <= s0.jobs[k].remaining
    ensures Consistent(s) && s == s0.(jobs := s.jobs) && |s.jobs| == |s0.jobs|
    ensures forall k :: 0 <= k < |s.jobs| && k !in s0.running ==> s.jobs[k] == s0.jobs[k]
    ensures forall k :: k in s0.running ==> s0.jobs[k].started.Some? && s.jobs[k] == JobTick(s0.jobs[k], shift)
    ensures Worked(s.jobs) == Worked(s0.jobs) + shift * |s0.running|
  {
    var js := s0.jobs;
    var todo := s0.running;
    while todo != {}
      invariant todo <= s0.running && |js| == |s0.jobs|
      invariant forall k :: 0 <= k < |js| && k !in s0.running - todo ==> js[k] == s0.jobs[k]
      invariant forall k :: k in s0.running - todo ==> s0.jobs[k].started.Some? && js[k] == JobTick(s0.jobs[k], shift)
      decreases todo
    {
      var k :| k in todo;
      todo := todo - {k};
      js := js[k := JobTick(js[k], shift)];
    }
    s := s0.(jobs := js);
    ShiftedOK(s0, s, shift);
    WorkedShift(s0.jobs, s.jobs, s0.running, shift);
  }

  /** Moving the running jobs on keeps a consistent state consistent. */
  lemma ShiftedOK(s0: ServerState, s: ServerState, shift: nat)
    requires Consistent(s0) && s == s0.(jobs := s.jobs) && |s.jobs| == |s0.jobs|
    requires forall k :: k in s0.running ==> shift <= s0.jobs[k].remaining
    requires forall k :: 0 <= k < |s.jobs| && k !in s0.running ==> s.jobs[k] == s0.jobs[k]
    requires forall k :: k in s0.running ==> s0.jobs[k].started.Some? && s.jobs[k] == JobTick(s0.jobs[k], shift)
    ensures Consistent(s)
  {
    forall x | x in s.ready
      ensures Ready(s.jobs, x)
    {
      ReadyStays(s0.jobs, s.jobs, x);
    }
  }

  /** The fifth loop of tick: running jobs that have finished move to the
      finished set. */
  method MoveFinished(s0: ServerState) returns (s: ServerState)
    requires Consistent(s0)
    ensures Consistent(s) && s == s0.(running := s.running, finished := s.finished)
    ensures s.running == set k: nat | k in s0.running && !s0.jobs[k].done
    ensures s.finished == s0.finished + set k: nat | k in s0.running && s0.jobs[k].done
  {
    s := s0;
    var todo := s.running;
    while todo != {}
      invariant Consistent(s) && todo <= s0.running
      invariant s == s0.(running := s.running, finished := s.finished)
      invariant s.running == todo + set k: nat | k in s0.running - todo && !s0.jobs[k].done
      invariant s.finished == s0.finished + set k: nat | k in s0.running - todo && s0.jobs[k].done
      decreases todo
    {
      var k :| k in todo;
      todo := todo - {k};
      FinishedIsDone(s.jobs[k]);
      if FinishedSet(s.jobs[k]) {
        RetireOK(s, k);
        s := s.(running := s.running - {k}, finished := s.finished + {k});
      }
    }
  }

  /** The last loop of tick: every runner drops its finished jobs. */
  method TickRunners(s0: ServerState) returns (s: ServerState)
    requires Consistent(s0) && forall k :: k in s0.running ==> !s0.jobs[k].done
    ensures Settled(s) && s == s0.(runners := s.runners) && |s.runners| == |s0.runners|
    ensures forall r :: 0 <= r < |s.runners| ==> s.runners[r] == RunnerTick(s0.runners[r], s0.jobs)
  {
    s := s0;
    var r := 0;
    while r < |s.runners|
      invariant 0 <= r <= |s.runners| && Consistent(s)
      invariant s == s0.(runners := s.runners) && |s.runners| == |s0.runners|
      invariant forall q :: 0 <= q < r ==> s.runners[q] == RunnerTick(s0.runners[q], s0.jobs)
      invariant forall q :: r <= q < |s.runners| ==> s.runners[q] == s0.runners[q]
      invariant forall q :: 0 <= q < r ==> RunnerBusy(s.runners[q], s.jobs)
    {
      RunnerTickOK(s, r);
      s := s.(runners := s.runners[r := RunnerTick(s.runners[r], s.jobs)]);
      r := r + 1;
    }
  }

  lemma HostedRetire(s0: ServerState, s: ServerState)
    requires Consistent(s0) && Hosted(s0) && Retired(s0, s)
    ensures Hosted(s)
  {
    forall k | k in s.running
      ensures exists r :: 0 <= r < |s.runners| && k in s.runners[r].jobs
    {
      var r :| 0 <= r < |s0.runners| && k in s0.runners[r].jobs;
      FinishedIsDone(s0.jobs[k]);
      assert k in s.runners[r].jobs;
    }
  }

  /** The phases of one tick, from s0 through s4. */
  ghost predicate TickPhases(s0: ServerState, s1: ServerState, s2: ServerState, s3: ServerState,
                             s4: ServerState, e: nat) {
    (forall k :: k in s0.ready ==> k < |s0.jobs| && Ready(s0.jobs, k)) &&
    s1 == s0.(ready := s0.ready + ReadyBelow(s0.jobs, |s0.jobs|)) &&
    StartProgress(s1, s2, {}) && Advanced(s2, s3, e) && Retired(s3, s4)
  }

  /** js lists the jobs of js0 later on: each keeps its description, and
      a job done stays done. */
  ghost predicate JobsLater(js0: seq<SimJob>, js: seq<SimJob>) {
    |js| == |js0| &&
    forall k :: 0 <= k < |js| ==> SameJob(js0[k], js[k]) && (js0[k].done ==> js[k].done)
  }

  lemma JobsLaterTrans(a: seq<SimJob>, b: seq<SimJob>, c: seq<SimJob>)
    requires JobsLater(a, b) && JobsLater(b, c)
    ensures JobsLater(a, c)
  {
  }

  /** The second loop of tick only starts jobs that were in the ready set,
      at the current time, and leaves the runners' configuration alone. */
  lemma StartPhase(s1: ServerState, s2: ServerState)
    requires StartProgress(s1, s2, {})
    ensures JobsLater(s1.jobs, s2.jobs) && s2.time == s1.time && s2.pipelines == s1.pipelines
    ensures forall k :: 0 <= k < |s2.jobs| ==> s2.jobs[k].done == s1.jobs[k].done
    ensures forall k :: 0 <= k < |s2.jobs| && s2.jobs[k].started != s1.jobs[k].started ==>
      k in s1.ready && s2.jobs[k].started == Some(s1.time)
    ensures SameConfig(s1.runners, s2.runners)
  {
    forall r | 0 <= r < |s2.runners|
      ensures ConfigOf(s2.runners[r]) == ConfigOf(s1.runners[r])
    {
      assert s2.runners[r].(jobs := s1.runners[r].jobs, runCount := s1.runners[r].runCount) == s1.runners[r];
    }
  }

  /** The third and fourth loops of tick move jobs on without restarting
      them; moving on by nothing changes nothing. */
  lemma AdvancePhase(s2: ServerState, s3: ServerState, e: nat)
    requires Advanced(s2, s3, e)
    ensures JobsLater(s2.jobs, s3.jobs) && s3.time == s2.time + e
    ensures s3 == s2.(jobs := s3.jobs, time := s3.time)
    ensures forall k :: 0 <= k < |s3.jobs| ==> s3.jobs[k].started == s2.jobs[k].started
    ensures e == 0 ==> s3 == s2
  {
    if e == 0 {
      forall k | 0 <= k < |s3.jobs|
        ensures s3.jobs[k] == s2.jobs[k]
      {
      }
    }
  }

  /** The last two loops of tick touch neither jobs nor the clock nor the
      runners' configuration. */
  lemma RetirePhase(s3: ServerState, s4: ServerState)
    requires Retired(s3, s4)
    ensures s4 == s3.(running := s4.running, finished := s4.finished, runners := s4.runners)
    ensures SameConfig(s3.runners, s4.runners)
  {
  }

  /** On a settled state the last two loops of tick change nothing but the
      finished set. */
  lemma RetireSettled(s3: ServerState, s4: ServerState)
    requires Settled(s3) && Retired(s3, s4)
    ensures s4 == s3.(finished := s4.finished)
  {
    assert s4.running == s3.running;
    forall r | 0 <= r < |s4.runners|
      ensures s4.runners[r] == s3.runners[r]
    {
      assert RunnerBusy(s3.runners[r], s3.jobs);
      forall x | x in s3.runners[r].jobs
        ensures !FinishedSet(s3.jobs[x])
      {
        FinishedIsDone(s3.jobs[x]);
      }
    }
  }

  /** Across a tick no job changes identity, done jobs stay done, and a job
      that started was ready when the tick began and started then. */
  lemma TickJobs(s0: ServerState, s1: ServerState, s2: ServerState, s3: ServerState, s4: ServerState, e: nat)
    requires TickPhases(s0, s1, s2, s3, s4, e)
    ensures |s4.jobs| == |s0.jobs| && s4.pipelines == s0.pipelines && s4.time == s0.time + e
    ensures forall k :: 0 <= k < |s4.jobs| ==> SameJob(s0.jobs[k], s4.jobs[k])
    ensures forall k :: 0 <= k < |s4.jobs| && s0.jobs[k].done ==> s4.jobs[k].done
    ensures forall k :: 0 <= k < |s4.jobs| && s0.jobs[k].started.None? && s4.jobs[k].started.Some? ==>
      Ready(s0.jobs, k) && s4.jobs[k].started == Some(s0.time)
  {
    StartPhase(s1, s2);
    AdvancePhase(s2, s3, e);
    RetirePhase(s3, s4);
    JobsLaterTrans(s1.jobs, s2.jobs, s3.jobs);
    assert JobsLater(s0.jobs, s4.jobs);
    forall k | 0 <= k < |s4.jobs| && s0.jobs[k].started.None? && s4.jobs[k].started.Some?
      ensures Ready(s0.jobs, k) && s4.jobs[k].started == Some(s0.time)
    {
      assert s4.jobs[k].started == s2.jobs[k].started;
      assert k in s1.ready;
    }
  }

  /** A tick that takes time finishes at least one job; one that takes none
      finishes nothing. */
  lemma TickProgress(s0: ServerState, s1: ServerState, s2: ServerState, s3: ServerState, s4: ServerState, e: nat)
    requires TickPhases(s0, s1, s2, s3, s4, e)
    ensures e > 0 ==> NotDoneOf(s4.jobs) < NotDoneOf(s0.jobs)
    ensures e == 0 ==> NotDoneOf(s4.jobs) == NotDoneOf(s0.jobs)
  {
    StartPhase(s1, s2);
    AdvancePhase(s2, s3, e);
    RetirePhase(s3, s4);
    JobsLaterTrans(s1.jobs, s2.jobs, s3.jobs);
    ProgressCore(s1.jobs, s2, s3, e);
  }

  /** Moving on by the least time a running job has left finishes that
      job; moving on by nothing finishes none. */
  lemma ProgressCore(js0: seq<SimJob>, s2: ServerState, s3: ServerState, e: nat)
    requires |s2.jobs| == |js0| && forall k :: 0 <= k < |js0| ==> s2.jobs[k].done == js0[k].done
    requires forall k :: k in s2.running ==> k < |s2.jobs| && !s2.jobs[k].done
    requires JobsLater(s2.jobs, s3.jobs) && Advanced(s2, s3, e)
    ensures e > 0 ==> NotDoneOf(s3.jobs) < NotDoneOf(js0)
    ensures e == 0 ==> NotDoneOf(s3.jobs) == NotDoneOf(js0)
  {
    NotDoneSame(js0, s2.jobs);
    if e > 0 {
      var k :| k in s2.running && s2.jobs[k].remaining == e;
      NotDoneLater(s2.jobs, s3.jobs, k);
    } else {
      assert s3.jobs == s2.jobs;
    }
  }

  /** A job finishing, with none coming undone, shrinks the jobs not done. */
  lemma NotDoneLater(js0: seq<SimJob>, js: seq<SimJob>, k: nat)
    requires JobsLater(js0, js) && k < |js| && !js0[k].done && js[k].done
    ensures NotDoneOf(js) < NotDoneOf(js0)
  {
    assert k in NotDoneOf(js0) - NotDoneOf(js);
  }

  lemma NotDoneSame(js0: seq<SimJob>, js: seq<SimJob>)
    requires |js| == |js0| && forall k :: 0 <= k < |js| ==> js[k].done == js0[k].done
    ensures NotDoneOf(js) == NotDoneOf(js0)
  {
  }

  /** Starting jobs does no work and leaves the runners' configuration
      alone. */
  lemma StartKeepsWork(s0: ServerState, s: ServerState)
    requires StartProgress(s0, s, {})
    ensures Worked(s.jobs) == Worked(s0.jobs)
    ensures OneAtATime(s0) ==> OneAtATime(s)
  {
    forall k | 0 <= k < |s.jobs|
      ensures Moved(s0.jobs[k], s.jobs[k], 0)
    {
    }
    WorkedShift(s0.jobs, s.jobs, {}, 0);
    if OneAtATime(s0) {
      assert s.runners[0].concurrent == s0.runners[0].concurrent;
    }
  }

  lemma RetireKeepsConfig(s0: ServerState, s: ServerState)
    requires Retired(s0, s) && OneAtATime(s0)
    ensures OneAtATime(s) && s.time == s0.time && s.jobs == s0.jobs
  {
    assert s.runners[0].concurrent == s0.runners[0].concurrent;
  }

  /** A runner's configuration: everything but its current jobs and count. */
  function ConfigOf(r: SimRunner): SimRunner {
    r.(jobs := [], runCount := 0)
  }

  /** rs lists the runners of rs0, configured as before. */
  ghost predicate SameConfig(rs0: seq<SimRunner>, rs: seq<SimRunner>) {
    |rs| == |rs0| && forall r :: 0 <= r < |rs| ==> ConfigOf(rs[r]) == ConfigOf(rs0[r])
  }

  lemma TickConfig(s0: ServerState, s1: ServerState, s2: ServerState, s3: ServerState, s4: ServerState, e: nat)
    requires TickPhases(s0, s1, s2, s3, s4, e)
    ensures SameConfig(s0.runners, s4.runners)
  {
    StartPhase(s1, s2);
    AdvancePhase(s2, s3, e);
    RetirePhase(s3, s4);
  }

  /** With one single-job runner the clock only moves while a job runs, so
      the time not spent working stays the same across a tick. */
  lemma TickWork(t0: int, w0: int, s2: ServerState, s3: ServerState, e: nat)
    requires Consistent(s2) && Hosted(s2) && OneAtATime(s2)
    requires s2.time == t0 && Worked(s2.jobs) == w0
    requires s3.time == s2.time + e && Worked(s3.jobs) == Worked(s2.jobs) + e * |s2.running|
    requires s2.running == {} ==> e == 0
    ensures s3.time - Worked(s3.jobs) == t0 - w0
  {
    OneRunning(s2);
    if e > 0 {
      assert |s2.running| == 1;
    }
  }

  /** A tick that takes no time leaves every ready job unplaceable, and
      whatever still runs includes a job with nothing left to do. */
  lemma TickStalled(s0: ServerState, s1: ServerState, s2: ServerState, s3: ServerState, s4: ServerState)
    requires TickPhases(s0, s1, s2, s3, s4, 0)
    ensures s4.running == {} || exists k :: k in s4.running && s4.jobs[k].remaining == 0
    ensures Unplaceable(s4.runners, s4.jobs, s4.ready)
  {
    AdvancePhase(s2, s3, 0);
    RetireSettled(s3, s4);
    assert s2.ready - {} == s2.ready;
  }

  /** After a tick that takes no time every ready job is in the ready set:
      it was collected at the start and nothing has finished since. */
  lemma TickStalledReady(s0: ServerState, s1: ServerState, s2: ServerState, s3: ServerState, s4: ServerState)
    requires TickPhases(s0, s1, s2, s3, s4, 0)
    ensures forall k :: 0 <= k < |s4.jobs| && Ready(s4.jobs, k) ==> k in s4.ready
  {
    AdvancePhase(s2, s3, 0);
    RetireSettled(s3, s4);
    StartPhase(s1, s2);
    forall k | 0 <= k < |s2.jobs| && Ready(s2.jobs, k)
      ensures k in s2.ready
    {
      assert s2.jobs[k].started == s1.jobs[k].started;
      assert k !in s1.ready - s2.ready;
      ReadyStays(s2.jobs, s1.jobs, k);
      assert k in ReadyBelow(s0.jobs, |s0.jobs|);
    }
  }

  /** Where a simulation stops: no ready job fits any runner, and whatever
      still runs includes a job with no time left (a job of duration zero
      never counts as finished). */
  ghost predicate Stalled(s: ServerState) {
    (forall k :: k in s.running ==> k < |s.jobs|) &&
    (s.running == {} || exists k :: k in s.running && s.jobs[k].remaining == 0) &&
    Unplaceable(s.runners, s.jobs, s.ready) &&
    (forall k :: 0 <= k < |s.jobs| && Ready(s.jobs, k) ==> k in s.ready)
  }

  /** The loop of add_pipeline: the pipeline's jobs, in order, after js. */
  method AppendJobs(js: seq<SimJob>, p: Pipeline, id: nat) returns (res: seq<SimJob>)
    ensures res == js + Tagged(p.jobs, id)
  {
    res := js;
    var i := 0;
    while i < |p.jobs|
      invariant 0 <= i <= |p.jobs|
      invariant res == js + Tagged(p.jobs[..i], id)
    {
      assert Tagged(p.jobs[..i + 1], id) == Tagged(p.jobs[..i], id) + [p.jobs[i].(pipeline := id)];
      res := res + [p.jobs[i].(pipeline := id)];
      i := i + 1;
    }
    assert p.jobs[..i] == p.jobs;
  }

  /** The fourth loop of tick and the clock moving on, once the least
      remaining time `shift` is known. */
  method AdvanceBy(s0: ServerState, shift: nat, ghost fastest: nat) returns (s: ServerState)
    requires Settled(s0) && Hosted(s0)
    requires fastest in s0.running && s0.jobs[fastest].remaining == shift
    requires forall k :: k in s0.running ==> shift <= s0.jobs[k].remaining
    ensures Consistent(s) && Hosted(s) && Advanced(s0, s, shift)
    ensures Worked(s.jobs) == Worked(s0.jobs) + shift * |s0.running|
  {
    var s1 := ShiftJobs(s0, shift);
    s := s1.(time := s1.time + shift);
    ConsistentLater(s1, s.time);
    HostedSame(s0, s);
    AdvancedShift(s0, s1, shift, fastest);
  }

  /** The running jobs moved on by the least time one of them has left, and
      the clock with them, is an Advanced step. */
  lemma AdvancedShift(s0: ServerState, s1: ServerState, shift: nat, fastest: nat)
    requires fastest in s0.running && fastest < |s0.jobs| && s0.jobs[fastest].remaining == shift
    requires forall k :: k in s0.running ==> k < |s0.jobs| && shift <= s0.jobs[k].remaining
    requires s1 == s0.(jobs := s1.jobs) && |s1.jobs| == |s0.jobs|
    requires forall k :: 0 <= k < |s1.jobs| && k !in s0.running ==> s1.jobs[k] == s0.jobs[k]
    requires forall k :: k in s0.running ==> s0.jobs[k].started.Some? && s1.jobs[k] == JobTick(s0.jobs[k], shift)
    ensures Advanced(s0, s1.(time := s1.time + shift), shift)
  {
  }

  /** The clock moving on keeps a consistent state consistent. */
  lemma ConsistentLater(s: ServerState, t: int)
    requires Consistent(s) && s.time <= t
    ensures Consistent(s.(time := t))
  {
  }

  /** Hosting depends only on the running set and the runners. */
  lemma HostedSame(s0: ServerState, s: ServerState)
    requires Hosted(s0) && s.running == s0.running && s.runners == s0.runners
    ensures Hosted(s)
  {
  }

  /** A new pipeline of unstarted jobs keeps a settled server settled. */
  lemma AddPipelineOK(s: ServerState, js: seq<SimJob>)
    requires Settled(s) && Hosted(s)
    requires forall k :: 0 <= k < |js| ==> Fresh(js[k])
    ensures Settled(s.(pipelines := s.pipelines + 1, jobs := s.jobs + Tagged(js, s.pipelines)))
    ensures Hosted(s.(pipelines := s.pipelines + 1, jobs := s.jobs + Tagged(js, s.pipelines)))
  {
    var ext := Tagged(js, s.pipelines);
    var s2 := s.(pipelines := s.pipelines + 1, jobs := s.jobs + ext);
    forall k | k in s2.ready
      ensures Ready(s2.jobs, k)
    {
      ReadyExtend(s.jobs, ext, k);
    }
    forall k | 0 <= k < |s2.jobs|
      ensures JobOK(s2.jobs[k]) && s2.jobs[k].pipeline < s2.pipelines
    {
      if k >= |s.jobs| {
        assert s2.jobs[k] == ext[k - |s.jobs|];
      }
    }
  }

  // ---------------------------------------------------------------------
  // The server

  class Server {
    var time: int
    var runners: seq<SimRunner>
    var pipelines: nat
    var jobs: seq<SimJob>
    var ready: set<nat>
    var running: set<nat>
    var finished: set<nat>

    function State(): ServerState
      reads this
    {
      ServerState(time, runners, pipelines, jobs, ready, running, finished)
    }

    ghost predicate Valid()
      reads this
    {
      Settled(State()) && Hosted(State())
    }

    /** The jobs not yet done. */
    ghost function NotDone(): set<nat>
      reads this
    {
      NotDoneOf(jobs)
    }

    method SetState(s: ServerState)
      modifies this
      ensures State() == s
    {
      time, runners, pipelines, jobs := s.time, s.runners, s.pipelines, s.jobs;
      ready, running, finished := s.ready, s.running, s.finished;
    }

    constructor ()
      ensures Valid()
      ensures State() == ServerState(0, [], 0, [], {}, {}, {})
    {
      time, runners, pipelines, jobs := 0, [], 0, [];
      ready, running, finished := {}, {}, {};
    }

    method AddRunner(name: string, images: bool, tags: set<string>, concurrent: int)
      requires Valid()
      modifies this
      ensures Valid()
      ensures State() == old(State()).(runners := old(runners) + [NewRunner(name, images, tags, concurrent)])
    {
      ghost var rs0 := runners;
      runners := runners + [NewRunner(name, images, tags, concurrent)];
      forall k | k in running
        ensures exists r :: 0 <= r < |runners| && k in runners[r].jobs
      {
        var r :| 0 <= r < |rs0| && k in rs0[r].jobs;
        assert runners[r] == rs0[r];
      }
    }

    /** add_pipeline: the pipeline's jobs join the server, all marked as
        belonging to this pipeline. */
    method AddPipeline(p: Pipeline) returns (id: nat)
      requires Valid()
      requires forall k :: 0 <= k < |p.jobs| ==> Fresh(p.jobs[k])
      modifies this
      ensures Valid()
      ensures id == old(pipelines)
      ensures State() == old(State()).(pipelines := id + 1, jobs := old(jobs) + Tagged(p.jobs, id))
    {
      id := pipelines;
      AddPipelineOK(State(), p.jobs);
      pipelines := pipelines + 1;
      jobs := AppendJobs(jobs, p, id);
    }

    /** The first loop of tick: every job that is ready joins the ready set. */
    method CollectReady()
      requires Valid()
      modifies this
      ensures Valid()
      ensures State() == old(State()).(ready := old(ready) + ReadyBelow(jobs, |jobs|))
    {
      var js, r := jobs, ready;
      CollectedOK(State(), ReadyBelow(js, |js|));
      var k: nat := 0;
      while k < |js|
        invariant k <= |js| && unchanged(this)
        invariant r == old(ready) + ReadyBelow(js, k)
      {
        ReadyBelowStep(js, k);
        if k !in r {
          if Ready(js, k) {
            r := r + {k};
          }
        }
        k := k + 1;
      }
      ready := r;
    }

    /** The second loop of tick: try every ready job, in an unspecified
        order, on the runners in list order; the first runner that matches
        takes it and the job starts now. */
    method StartReady()
      requires Valid()
      modifies this
      ensures StartProgress(old(State()), State(), {}) && Hosted(State())
    {
      ghost var s0 := State();
      var s := State();
      var pending := s.ready;
      while pending != {}
        invariant StartProgress(s0, s, pending) && Hosted(s)
        decreases pending
      {
        var j :| j in pending;
        pending := pending - {j};
        // the ready and running sets are disjoint, so the source's
        // `job not in self.running_jobs` test always passes
        assert j !in s.running;
        var r := FindRunner(s.runners, s.jobs[j]);
        if r < |s.runners| {
          StartProgressPlaced(s0, s, pending, j, r);
          HostedStart(s, j, r);
          s := StartJobState(s, j, r);
        } else {
          StartProgressSkipped(s0, s, pending, j);
        }
      }
      SetState(s);
    }

    /** The running job with the least time remaining. */
    method Fastest() returns (fastest: nat)
      requires Valid() && running != {}
      ensures fastest in running
      ensures forall k :: k in running ==> jobs[fastest].remaining <= jobs[k].remaining
    {
      var first :| first in running;
      fastest := first;
      var todo := running - {first};
      while todo != {}
        invariant todo <= running && fastest in running
        invariant forall k :: k in running - todo ==> jobs[fastest].remaining <= jobs[k].remaining
        decreases todo
      {
        var k :| k in todo;
        if jobs[fastest].remaining > jobs[k].remaining {
          fastest := k;
        }
        todo := todo - {k};
      }
    }

    /** The third and fourth loops of tick: find the smallest remaining time
        among running jobs and move every running job and the clock on by
        it. */
    method Advance() returns (shift: nat)
      requires Valid()
      modifies this
      ensures Consistent(State()) && Hosted(State()) && Advanced(old(State()), State(), shift)
      ensures Worked(jobs) == old(Worked(jobs)) + shift * |old(running)|
    {
      shift := 0;
      if running != {} {
        var fastest := Fastest();
        shift := jobs[fastest].remaining;
        var s := AdvanceBy(State(), shift, fastest);
        SetState(s);
      }
    }

    /** The last two loops of tick: finished jobs leave the running set for
        the finished set, and every runner drops its finished jobs. */
    method Retire()
      requires Consistent(State()) && Hosted(State())
      modifies this
      ensures Valid() && Retired(old(State()), State())
    {
      var s := MoveFinished(State());
      s := TickRunners(s);
      HostedRetire(State(), s);
      SetState(s);
    }

    /** Server.tick: returns the time that passed, zero when nothing could
        run. */
    method Tick() returns (elapsed: nat)
      requires Valid()
      modifies this
      ensures Valid()
      ensures time == old(time) + elapsed
      ensures |jobs| == |old(jobs)| && pipelines == old(pipelines) && |runners| == |old(runners)|
      ensures forall k :: 0 <= k < |jobs| ==> SameJob(old(jobs[k]), jobs[k])
      ensures SameConfig(old(runners), runners)
      ensures forall k :: 0 <= k < |jobs| && old(jobs[k]).done ==> jobs[k].done
      ensures forall k :: 0 <= k < |jobs| && old(jobs[k]).started.None? && jobs[k].started.Some? ==>
        Ready(old(jobs), k) && jobs[k].started == Some(old(time))
      ensures elapsed > 0 ==> NotDone() < old(NotDone())
      ensures elapsed == 0 ==> NotDone() == old(NotDone())
      ensures elapsed == 0 ==> running == {} || exists k :: k in running && jobs[k].remaining == 0
      ensures elapsed == 0 ==> Unplaceable(runners, jobs, ready)
      ensures elapsed == 0 ==> forall k :: 0 <= k < |jobs| && Ready(jobs, k) ==> k in ready
      ensures OneAtATime(old(State())) ==> OneAtATime(State()) && time - Worked(jobs) == old(time - Worked(jobs))
    {
      ghost var s0 := State();
      CollectReady();
      ghost var s1 := State();
      assert Worked(s1.jobs) == Worked(s0.jobs) && s1.runners == s0.runners;
      StartReady();
      ghost var s2 := State();
      elapsed := Advance();
      ghost var s3 := State();
      Retire();
      ghost var s4 := State();
      assert TickPhases(s0, s1, s2, s3, s4, elapsed);
      TickJobs(s0, s1, s2, s3, s4, elapsed);
      TickConfig(s0, s1, s2, s3, s4, elapsed);
      TickProgress(s0, s1, s2, s3, s4, elapsed);
      if OneAtATime(s0) {
        StartKeepsWork(s1, s2);
        TickWork(s0.time, Worked(s0.jobs), s2, s3, elapsed);
        RetireKeepsConfig(s3, s4);
      }
      if elapsed == 0 {
        TickStalled(s0, s1, s2, s3, s4);
        TickStalledReady(s0, s1, s2, s3, s4);
      }
    }
  }

  /** js lists the jobs of js0 further on. */
  ghost predicate KeepsJobs(js0: seq<SimJob>, js: seq<SimJob>) {
    |js| == |js0| && forall k :: 0 <= k < |js| ==> SameJob(js0[k], js[k])
  }

  /** Simulation: a server driven tick by tick until nothing more can
      happen. */
  class Simulation {
    var server: Server
    var time: int

    ghost predicate Valid()
      reads this, server
    {
      server.Valid() && time == server.time
    }

    constructor ()
      ensures Valid() && fresh(server)
      ensures server.State() == ServerState(0, [], 0, [], {}, {}, {})
    {
      server := new Server();
      time := 0;
    }

    method AddPipeline(p: Pipeline) returns (id: nat)
      requires Valid()
      requires forall k :: 0 <= k < |p.jobs| ==> Fresh(p.jobs[k])
      modifies server
      ensures Valid()
      ensures id == old(server.pipelines)
      ensures server.State() == old(server.State()).(pipelines := id + 1, jobs := old(server.jobs) + Tagged(p.jobs, id))
    {
      id := server.AddPipeline(p);
    }

    /** Simulation.tick: one server tick; the simulation clock follows the
        server's. */
    method Tick() returns (shift: nat)
      requires Valid()
      modifies this, server
      ensures Valid() && server == old(server)
      ensures time == old(time) + shift
      ensures shift > 0 ==> server.NotDone() < old(server.NotDone())
      ensures shift == 0 ==> server.NotDone() == old(server.NotDone())
      ensures shift == 0 ==> Stalled(server.State())
      ensures Since(old(server.State()), old(time), server.State(), time)
    {
      shift := server.Tick();
      time := time + shift;
      assert shift == 0 ==> Stalled(server.State());
    }

    /** Simulation.run: tick until a tick takes no time, and return the
        clock. Every tick that takes time finishes a job, so this ends. */
    method Run() returns (t: int)
      requires Valid()
      modifies this, server
      ensures Valid() && server == old(server) && t == time
      ensures Stalled(server.State())
      ensures Since(old(server.State()), old(time), server.State(), t)
    {
      ghost var s0, t0 := server.State(), time;
      var shift := Tick();
      while shift != 0
        invariant Valid() && server == old(server)
        invariant shift == 0 ==> Stalled(server.State())
        invariant Since(s0, t0, server.State(), time)
        decreases server.NotDone(), if shift > 0 then 1 else 0
      {
        ghost var s1, t1 := server.State(), time;
        shift := Tick();
        SinceTrans(s0, t0, s1, t1, server.State(), time);
      }
      t := time;
    }
  }

  /** From server state s0 at clock t0 to s at clock t: the clock has not
      gone back, every job is still there with its description, every
      runner keeps its configuration, and with one single-job runner the
      time not spent working is unchanged. */
  ghost predicate Since(s0: ServerState, t0: int, s: ServerState, t: int) {
    t >= t0 && KeepsJobs(s0.jobs, s.jobs) && SameConfig(s0.runners, s.runners) &&
    (OneAtATime(s0) ==> OneAtATime(s) && t - Worked(s.jobs) == t0 - Worked(s0.jobs))
  }

  lemma SinceTrans(s0: ServerState, t0: int, s1: ServerState, t1: int, s2: ServerState, t2: int)
    requires Since(s0, t0, s1, t1) && Since(s1, t1, s2, t2)
    ensures Since(s0, t0, s2, t2)
  {
  }

  // ---------------------------------------------------------------------
  // The simple simulation of simulator/test_sim_simple.py

  /** A build job, two jobs that need it, and a release job that needs the
      build and the tests, all using an image and no tags. */
  function SimpleJobs(): (js: seq<SimJob>)
    ensures |js| == 4 && forall k :: 0 <= k < |js| ==> Fresh(js[k]) && js[k].pipeline == 0
  {
    [NewJob("build", "build", {}, "ubuntu", [], 5),
     NewJob("test", "test", {}, "ubuntu", ["build"], 5),
     NewJob("scan", "test", {}, "ubuntu", ["build"], 3),
     NewJob("release", "release", {}, "ubuntu", ["test", "build"], 6)]
  }

  lemma {:induction false} TotalDurationSame(js0: seq<SimJob>, js: seq<SimJob>)
    requires |js| == |js0| && forall k :: 0 <= k < |js| ==> js[k].duration == js0[k].duration
    ensures TotalDuration(js) == TotalDuration(js0)
    decreases |js|
  {
    if js != [] {
      TotalDurationSame(js0[..|js0| - 1], js[..|js| - 1]);
    }
  }

  lemma {:induction false} WorkedFresh(js: seq<SimJob>)
    requires forall k :: 0 <= k < |js| ==> js[k].remaining == js[k].duration
    ensures Worked(js) == 0
    decreases |js|
  {
    if js != [] {
      WorkedFresh(js[..|js| - 1]);
    }
  }

  lemma SimpleTotal()
    ensures TotalDuration(SimpleJobs()) == 19
  {
    var js := SimpleJobs();
    assert js[..1][..0] == [];
    assert js[..2][..1] == js[..1] && js[..3][..2] == js[..2] && js[..4][..3] == js[..3] && js[..4] == js;
    assert TotalDuration(js[..1]) == 5;
    assert TotalDuration(js[..2]) == 10;
    assert TotalDuration(js[..3]) == 13;
  }

  /** The jobs of the simple pipeline wait only for the jobs they name. */
  lemma NoneNeeded(js: seq<SimJob>, i: nat)
    requires KeepsJobs(SimpleJobs(), js) && i < 4
    requires forall k :: 0 <= k < i ==> js[k].done
    ensures |Needed(js, i, 4)| == 0
  {
    assert |Needed(js, i, 1)| == 0;
    assert |Needed(js, i, 2)| == 0;
    assert |Needed(js, i, 3)| == 0;
  }

  /** A stopped server whose one single-job runner takes every untagged job
      with an image has nothing running and nothing ready: every job not
      done is waiting, unstarted, for another. */
  lemma StalledIdle(s: ServerState)
    requires Settled(s) && Hosted(s) && Stalled(s)
    requires OneAtATime(s) && s.runners[0].images
    requires forall k :: 0 <= k < |s.jobs| ==> s.jobs[k].duration > 0 && s.jobs[k].tags == {} && s.jobs[k].image != ""
    ensures forall k :: 0 <= k < |s.jobs| && !s.jobs[k].done ==> s.jobs[k].started.None? && !Ready(s.jobs, k)
  {
    var js := s.jobs;
    forall k | k in s.running
      ensures js[k].remaining > 0
    {
    }
    assert s.running == {};
    var rr := s.runners[0];
    assert RunnerOK(rr, js, s.running) && RunnerBusy(rr, js);
    ghost var first: nat := if |rr.jobs| > 0 then rr.jobs[0] else 0;
    assert |rr.jobs| > 0 ==> first in rr.jobs;
    forall k | 0 <= k < |js|
      ensures Match(rr, js[k])
    {
    }
    assert s.ready == {};
  }

  /** On the simple pipeline, no job can wait forever. */
  lemma SimpleAllDone(js: seq<SimJob>)
    requires KeepsJobs(SimpleJobs(), js)
    requires forall k :: 0 <= k < |js| && !js[k].done ==> js[k].started.None? && !Ready(js, k)
    ensures forall k :: 0 <= k < |js| ==> js[k].done
  {
    NoneNeeded(js, 0);
    assert js[0].done;
    NoneNeeded(js, 1);
    assert js[1].done;
    NoneNeeded(js, 2);
    assert js[2].done;
    NoneNeeded(js, 3);
    assert js[3].done;
  }

  /** The simple pipeline, run to a stop by one single-job runner that
      starts with no work done, takes 19. */
  lemma SimpleFinish(s: ServerState, t: int)
    requires Settled(s) && Hosted(s) && Stalled(s) && OneAtATime(s) && s.runners[0].images
    requires KeepsJobs(SimpleJobs(), s.jobs) && t - Worked(s.jobs) == 0
    ensures t == 19
  {
    StalledIdle(s);
    SimpleAllDone(s.jobs);
    WorkedAllDone(s.jobs);
    TotalDurationSame(SimpleJobs(), s.jobs);
    SimpleTotal();
  }

  /** test_simple_tick: one runner taking one job at a time runs the four
      jobs of the simple pipeline one after another, finishing at 19. */
  method SimpleRun() returns (t: int)
    ensures t == 19
  {
    var sim := SimpleSetup();
    ghost var s0 := sim.server.State();
    SimpleStart(s0);
    t := sim.Run();
    ghost var s := sim.server.State();
    assert s.runners[0].images by {
      assert ConfigOf(s.runners[0]) == ConfigOf(s0.runners[0]);
    }
    SimpleFinish(s, t);
  }

  /** The simulation of test_simple_tick before it runs: one runner taking
      one job at a time, and the simple pipeline. */
  method SimpleSetup() returns (sim: Simulation)
    ensures fresh(sim) && fresh(sim.server) && sim.Valid()
    ensures sim.server.State() == ServerState(0, [NewRunner("runner1", true, {}, 1)], 1, [] + Tagged(SimpleJobs(), 0), {}, {}, {})
  {
    sim := new Simulation();
    sim.server.AddRunner("runner1", true, {}, 1);
    var id := sim.AddPipeline(SimplePipeline());
  }

  /** The pipeline of test_simple_tick, its jobs added one by one. */
  function SimplePipeline(): (p: Pipeline)
    ensures p.jobs == SimpleJobs()
  {
    var js := SimpleJobs();
    var p := Pipeline([]).AddJob(js[0]).AddJob(js[1]).AddJob(js[2]).AddJob(js[3]);
    assert p.jobs == js;
    p
  }

  /** The server of test_simple_tick once its runner and pipeline are in. */
  lemma SimpleStart(s0: ServerState)
    requires s0 == ServerState(0, [NewRunner("runner1", true, {}, 1)], 1, [] + Tagged(SimpleJobs(), 0), {}, {}, {})
    ensures s0.jobs == SimpleJobs() && s0.time == 0 && Worked(s0.jobs) == 0
    ensures OneAtATime(s0) && s0.runners[0].images
  {
    var js := SimpleJobs();
    assert [] + Tagged(js, 0) == js;
    WorkedFresh(js);
  }
}
