/** The first-generation `execute_job`, whose `seen` parameter defaults to
    one set object made when the function is defined and shared by every
    call that omits it. */
module LegacyRunner {
  import opened Wrappers
  import opened Yaml
  import opened Runner

  /** The `execute_job` function object, holding its default `seen` set. */
  class LegacyRunner {
    const defaultSeen: SeenSet

    constructor ()
      ensures fresh(defaultSeen) && defaultSeen.names == {}
    {
      defaultSeen := new SeenSet();
    }

    /** The set a call uses: the given one, or the shared default. */
    function Target(seen: SeenSet?): (s: SeenSet)
      ensures seen != null ==> s == seen
      ensures seen == null ==> s == defaultSeen
    {
      if seen == null then defaultSeen else seen
    }

    /** execute_job as written: the legacy configuration loader defines no
        `load_job`, so a job not yet in the set raises AttributeError
        before anything runs or is recorded; only a job already in the set
        returns normally. Nothing changes either way. */
    method ExecuteJobAsWritten(seen: SeenSet?, jobname: string, recurse: bool) returns (r: Result<(), PyError>)
      ensures r == AsWritten(Target(seen).names, jobname)
    {
      if jobname !in Target(seen).names {
        return Err(AttributeError);
      }
      return Ok(());
    }

    /** execute_job with a `load_job` that behaves as the later emulator's
        does: a job already in the set is skipped; a name that is not a job
        raises NoSuchJob, returned here; with `recurse` the jobs it needs
        run first through the same set; the job is added to the set after
        it runs. Omitting `seen` uses the shared default. */
    method ExecuteJob(log: RunLog, seen: SeenSet?, deps: map<string, seq<string>>, ghost rank: map<string, nat>,
                      jobname: string, recurse: bool) returns (missing: Option<string>)
      requires Acyclic(deps, rank)
      modifies log, Target(seen)
      ensures var o := Exec(deps, rank, old(Target(seen).names), jobname, recurse);
              log.ran == old(log.ran) + o.ran && missing == o.missing
      ensures Target(seen).names == old(Target(seen).names) + Elems(Exec(deps, rank, old(Target(seen).names), jobname, recurse).ran)
      ensures missing.None? ==> jobname in Target(seen).names
    {
      var target := Target(seen);
      missing := Runner.ExecuteJob(log, target, deps, rank, jobname, recurse);
      ExecCompletes(deps, rank, old(target.names), jobname, recurse);
    }

    /** Two calls that both omit `seen`, the second made only when the first
        raised nothing: the second runs nothing, because the first left the
        job in the shared default set. */
    method ExecuteTwice(log: RunLog, deps: map<string, seq<string>>, ghost rank: map<string, nat>,
                        jobname: string, recurse: bool) returns (missing: Option<string>)
      requires Acyclic(deps, rank)
      modifies log, defaultSeen
      ensures var o := Exec(deps, rank, old(defaultSeen.names), jobname, recurse);
              log.ran == old(log.ran) + o.ran && missing == o.missing
    {
      missing := ExecuteJob(log, null, deps, rank, jobname, recurse);
      if missing.Some? {
        return;
      }
      ghost var between := log.ran;
      missing := ExecuteJob(log, null, deps, rank, jobname, recurse);
      assert log.ran == between;
    }
  }

  /** What execute_job as written gives for a completed set: normal return
      for a completed job, AttributeError for any other. */
  function AsWritten(seen: set<string>, job: string): (r: Result<(), PyError>)
    ensures r.Ok? <==> job in seen
    ensures r.Err? ==> r.error == AttributeError
  {
    if job in seen then Ok(()) else Err(AttributeError)
  }

  /** As written, a job of the configuration that is not completed yet
      never runs, where the corrected call runs it. */
  lemma AsWrittenNeverRuns(deps: map<string, seq<string>>, rank: map<string, nat>, seen: set<string>, job: string)
    requires Acyclic(deps, rank) && job in deps && job !in seen
    ensures AsWritten(seen, job) == Err(AttributeError)
    ensures Exec(deps, rank, seen, job, false) == Outcome([job], None)
  {
    ExecSingle(deps, rank, seen, job);
  }

  /** After a call that raised nothing the job is in the set, whether it
      ran or was skipped; a NoSuchJob names a name that is not a job. */
  lemma ExecCompletes(deps: map<string, seq<string>>, rank: map<string, nat>, seen: set<string>,
                      job: string, recurse: bool)
    requires Acyclic(deps, rank)
    ensures var o := Exec(deps, rank, seen, job, recurse);
            (o.missing.None? ==> job in seen + Elems(o.ran)) &&
            (o.missing.Some? ==> o.missing.value !in deps)
  {
    if recurse {
      ExecPostOrder(deps, rank, seen, job);
    } else {
      ExecSingle(deps, rank, seen, job);
    }
  }

  /** A call never runs a job that the set already holds, and runs each job
      at most once. */
  lemma ExecOnce(deps: map<string, seq<string>>, rank: map<string, nat>, seen: set<string>,
                 job: string, recurse: bool)
    requires Acyclic(deps, rank)
    ensures var run := Exec(deps, rank, seen, job, recurse).ran;
            (forall i, j :: 0 <= i < j < |run| ==> run[i] != run[j]) && forall x :: x in run ==> x !in seen
  {
    if recurse {
      ExecPostOrder(deps, rank, seen, job);
    } else {
      ExecSingle(deps, rank, seen, job);
    }
  }
}
