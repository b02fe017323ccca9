/** Running a job of the emulator, optionally after the jobs it needs, and
    the checks the command line applies to `--var` and `--parallel`. */
module Runner {
  import opened Wrappers
  import opened Text
  import opened Yaml
  import ConfigLoader

  // ---------------------------------------------------------------------
  // execute_job

  /** The Python set object that collects completed jobs; the caller and
      every recursive call share it. */
  class SeenSet {
    var names: set<string>

    constructor ()
      ensures names == {}
    {
      names := {};
    }
  }

  /** The observable effect of `jobobj.run()`: the jobs run, in order. */
  class RunLog {
    var ran: seq<string>

    constructor ()
      ensures ran == []
    {
      ran := [];
    }
  }

  /** The jobs of the configuration with the jobs each needs, as
      `load_job(config, name).dependencies` gives them. A needed name may
      not be a job at all (nothing checks `dependencies`), but among jobs
      every dependency ranks below the job that needs it, so there is no
      cycle. */
  ghost predicate Acyclic(deps: map<string, seq<string>>, rank: map<string, nat>) {
    forall j :: j in deps ==> j in rank && forall d :: d in deps[j] ==> Height(deps, rank, d) <= rank[j]
  }

  /** One more than a job's rank; 0 for a name that is not a job. */
  function Height(deps: map<string, seq<string>>, rank: map<string, nat>, job: string): nat {
    if job in deps && job in rank then rank[job] + 1 else 0
  }

  /** What a call leaves behind: the jobs it ran, in order, and the name
      `load_job` raised NoSuchJob for, when one stopped it. */
  datatype Outcome = Outcome(ran: seq<string>, missing: Option<string>)

  /** An outcome after jobs that already ran. */
  function After(done: seq<string>, o: Outcome): (r: Outcome)
    ensures r.ran == done + o.ran && r.missing == o.missing
  {
    Outcome(done + o.ran, o.missing)
  }

  /** The jobs a call runs, in order, given the completed set on entry: a
      completed job is skipped, a name that is not a job stops everything
      with NoSuchJob, and with `recurse` the job runs after its needs and
      only when none of them stopped. */
  function Exec(deps: map<string, seq<string>>, rank: map<string, nat>, seen: set<string>,
                job: string, recurse: bool): Outcome
    requires Acyclic(deps, rank)
    decreases Height(deps, rank, job), 1
  {
    if job in seen then Outcome([], None)
    else if job !in deps then Outcome([], Some(job))
    else if !recurse then Outcome([job], None)
    else
      var before := ExecAll(deps, rank, seen, deps[job], Height(deps, rank, job));
      if before.missing.Some? then before else After(before.ran, Outcome([job], None))
  }

  /** The jobs run for each of needs in turn, each call seeing the jobs the
      earlier ones completed, up to the first that stops. */
  function ExecAll(deps: map<string, seq<string>>, rank: map<string, nat>, seen: set<string>,
                   needs: seq<string>, bound: nat): Outcome
    requires Acyclic(deps, rank)
    requires Below(deps, rank, needs, bound)
    decreases bound, 0, |needs|
  {
    if needs == [] then Outcome([], None)
    else
      var first := Exec(deps, rank, seen, needs[0], true);
      if first.missing.Some? then first
      else After(first.ran, ExecAll(deps, rank, seen + Elems(first.ran), needs[1..], bound))
  }

  /** Every name of needs is lower than bound. */
  ghost predicate Below(deps: map<string, seq<string>>, rank: map<string, nat>, needs: seq<string>, bound: nat) {
    forall d :: d in needs ==> Height(deps, rank, d) < bound
  }

  /** The jobs run for needs[i..] are those run for needs[i], followed,
      when it did not stop, by those run for the rest once needs[i]'s jobs
      are complete. */
  lemma ExecAllStep(deps: map<string, seq<string>>, rank: map<string, nat>, seen: set<string>,
                    needs: seq<string>, bound: nat, i: nat)
    requires Acyclic(deps, rank) && Below(deps, rank, needs, bound) && i < |needs|
    ensures Below(deps, rank, needs[i..], bound) && Below(deps, rank, needs[i + 1..], bound)
    ensures Height(deps, rank, needs[i]) < bound
    ensures var first := Exec(deps, rank, seen, needs[i], true);
            ExecAll(deps, rank, seen, needs[i..], bound)
            == if first.missing.Some? then first
               else After(first.ran, ExecAll(deps, rank, seen + Elems(first.ran), needs[i + 1..], bound))
  {
    assert needs[i..][0] == needs[i] && needs[i..][1..] == needs[i + 1..];
  }

  /** The whole outcome of the loop when its need at i stops it. */
  lemma ExecAllStop(deps: map<string, seq<string>>, rank: map<string, nat>, seen0: set<string>,
                    needs: seq<string>, bound: nat, i: nat, done: seq<string>, seen1: set<string>)
    requires Acyclic(deps, rank) && Below(deps, rank, needs, bound) && i < |needs|
    requires After(done, ExecAll(deps, rank, seen1, needs[i..], bound)) == ExecAll(deps, rank, seen0, needs, bound)
    requires Exec(deps, rank, seen1, needs[i], true).missing.Some?
    ensures After(done, Exec(deps, rank, seen1, needs[i], true)) == ExecAll(deps, rank, seen0, needs, bound)
  {
    ExecAllStep(deps, rank, seen1, needs, bound, i);
  }

  /** The loop invariant of ExecuteAll carried over a need that did not
      stop it. */
  lemma ExecAllAdvance(deps: map<string, seq<string>>, rank: map<string, nat>, seen0: set<string>,
                       needs: seq<string>, bound: nat, i: nat, done: seq<string>, seen1: set<string>)
    requires Acyclic(deps, rank) && Below(deps, rank, needs, bound) && i < |needs|
    requires seen1 == seen0 + Elems(done)
    requires After(done, ExecAll(deps, rank, seen1, needs[i..], bound)) == ExecAll(deps, rank, seen0, needs, bound)
    requires Exec(deps, rank, seen1, needs[i], true).missing.None?
    ensures var first := Exec(deps, rank, seen1, needs[i], true);
            seen1 + Elems(first.ran) == seen0 + Elems(done + first.ran) &&
            After(done + first.ran, ExecAll(deps, rank, seen1 + Elems(first.ran), needs[i + 1..], bound))
              == ExecAll(deps, rank, seen0, needs, bound)
  {
    var first := Exec(deps, rank, seen1, needs[i], true);
    ExecAllStep(deps, rank, seen1, needs, bound, i);
    ElemsAppend(done, first.ran);
    var rest := ExecAll(deps, rank, seen1 + Elems(first.ran), needs[i + 1..], bound);
    assert (done + first.ran) + rest.ran == done + (first.ran + rest.ran);
  }

  lemma ElemsAppend(xs: seq<string>, ys: seq<string>)
    ensures Elems(xs + ys) == Elems(xs) + Elems(ys)
  {
  }

  /** What a run of jobs must be: no job twice, none already completed,
      each a job of the configuration and each run after every job it needs
      (which is completed on entry or earlier in the run). */
  ghost predicate PostOrder(deps: map<string, seq<string>>, seen: set<string>, run: seq<string>) {
    (forall i, j :: 0 <= i < j < |run| ==> run[i] != run[j]) &&
    (forall i :: 0 <= i < |run| ==> run[i] !in seen && run[i] in deps) &&
    (forall i :: 0 <= i < |run| ==> forall d :: d in deps[run[i]] ==> d in seen || d in run[..i])
  }

  /** Two runs in sequence, the second starting from what the first
      completed, make one run. */
  lemma PostOrderAppend(deps: map<string, seq<string>>, seen: set<string>, a: seq<string>, b: seq<string>)
    requires PostOrder(deps, seen, a) && PostOrder(deps, seen + Elems(a), b)
    ensures PostOrder(deps, seen, a + b)
  {
    var r := a + b;
    forall i | 0 <= i < |r|
      ensures r[i] !in seen && r[i] in deps
      ensures forall d :: d in deps[r[i]] ==> d in seen || d in r[..i]
    {
      if i >= |a| {
        assert r[i] == b[i - |a|];
        assert r[..i] == a + b[..i - |a|];
      } else {
        assert r[..i] == a[..i];
      }
    }
    forall i, j | 0 <= i < j < |r|
      ensures r[i] != r[j]
    {
      if i < |a| && j >= |a| {
        assert r[j] == b[j - |a|] && r[j] !in Elems(a);
      }
    }
  }

  /** With `recurse`, a call runs every job after everything it needs and
      each job at most once; every job run is no higher than the job; when
      nothing stopped it the job is completed afterwards, and when a name
      stopped it that name is not a job and was not completed. */
  lemma {:induction false} ExecPostOrder(deps: map<string, seq<string>>, rank: map<string, nat>,
                                         seen: set<string>, job: string)
    requires Acyclic(deps, rank)
    ensures var o := Exec(deps, rank, seen, job, true);
            && PostOrder(deps, seen, o.ran)
            && (o.missing.None? ==> job in seen + Elems(o.ran))
            && (o.missing.Some? ==> o.missing.value !in deps && o.missing.value !in seen)
            && forall x :: x in o.ran ==> Height(deps, rank, x) <= Height(deps, rank, job)
    decreases Height(deps, rank, job), 1
  {
    if job !in seen && job in deps {
      var a := ExecAll(deps, rank, seen, deps[job], Height(deps, rank, job));
      ExecAllPostOrder(deps, rank, seen, deps[job], Height(deps, rank, job));
      if a.missing.None? {
        assert job !in Elems(a.ran);
        PostOrderSnoc(deps, seen, a.ran, job);
      }
    }
  }

  /** A run followed by a job whose needs it completed is still a run. */
  lemma PostOrderSnoc(deps: map<string, seq<string>>, seen: set<string>, a: seq<string>, job: string)
    requires PostOrder(deps, seen, a) && job !in seen && job in deps && job !in Elems(a)
    requires forall d :: d in deps[job] ==> d in seen + Elems(a)
    ensures PostOrder(deps, seen, a + [job])
  {
    var r := a + [job];
    forall i | 0 <= i < |r|
      ensures forall d :: d in deps[r[i]] ==> d in seen || d in r[..i]
    {
      if i < |a| {
        assert r[..i] == a[..i];
      } else {
        assert r[..i] == a;
      }
    }
  }

  /** The dependency loop runs each need after what it needs; when nothing
      stopped it every need is completed afterwards, and when a name stopped
      it that name is not a job and was not completed. */
  lemma {:induction false} ExecAllPostOrder(deps: map<string, seq<string>>, rank: map<string, nat>,
                                            seen: set<string>, needs: seq<string>, bound: nat)
    requires Acyclic(deps, rank) && Below(deps, rank, needs, bound)
    ensures var o := ExecAll(deps, rank, seen, needs, bound);
            && PostOrder(deps, seen, o.ran)
            && (o.missing.None? ==> forall d :: d in needs ==> d in seen + Elems(o.ran))
            && (o.missing.Some? ==> o.missing.value !in deps && o.missing.value !in seen)
            && forall x :: x in o.ran ==> Height(deps, rank, x) < bound
    decreases bound, 0, |needs|
  {
    if needs != [] {
      var first := Exec(deps, rank, seen, needs[0], true);
      ExecPostOrder(deps, rank, seen, needs[0]);
      if first.missing.None? {
        var rest := ExecAll(deps, rank, seen + Elems(first.ran), needs[1..], bound);
        ExecAllPostOrder(deps, rank, seen + Elems(first.ran), needs[1..], bound);
        PostOrderAppend(deps, seen, first.ran, rest.ran);
        ElemsAppend(first.ran, rest.ran);
        forall d | d in needs && rest.missing.None?
          ensures d in seen + Elems(first.ran + rest.ran)
        {
          if d != needs[0] {
            assert d in needs[1..];
          }
        }
      }
    }
  }

  /** Without `recurse` only the named job runs, when it is not completed
      yet; a name that is not a job stops with NoSuchJob. */
  lemma ExecSingle(deps: map<string, seq<string>>, rank: map<string, nat>, seen: set<string>, job: string)
    requires Acyclic(deps, rank)
    ensures Exec(deps, rank, seen, job, false)
            == if job in seen then Outcome([], None)
               else if job in deps then Outcome([job], None)
               else Outcome([], Some(job))
  {
  }

  /** Every name needed is a job. */
  ghost predicate Closed(deps: map<string, seq<string>>) {
    forall j :: j in deps ==> forall d :: d in deps[j] ==> d in deps
  }

  /** NoSuchJob is raised only for a name that is not a job: when every
      name reachable is a job, nothing stops a call. */
  lemma {:induction false} ExecClosed(deps: map<string, seq<string>>, rank: map<string, nat>,
                                      seen: set<string>, job: string, recurse: bool)
    requires Acyclic(deps, rank) && Closed(deps) && (job in seen || job in deps)
    ensures Exec(deps, rank, seen, job, recurse).missing == None
    decreases Height(deps, rank, job), 1
  {
    if job !in seen && recurse {
      ExecAllClosed(deps, rank, seen, deps[job], Height(deps, rank, job));
    }
  }

  /** The dependency loop over jobs only is never stopped. */
  lemma {:induction false} ExecAllClosed(deps: map<string, seq<string>>, rank: map<string, nat>,
                                         seen: set<string>, needs: seq<string>, bound: nat)
    requires Acyclic(deps, rank) && Closed(deps) && Below(deps, rank, needs, bound)
    requires forall d :: d in needs ==> d in deps
    ensures ExecAll(deps, rank, seen, needs, bound).missing == None
    decreases bound, 0, |needs|
  {
    if needs != [] {
      var first := Exec(deps, rank, seen, needs[0], true);
      ExecClosed(deps, rank, seen, needs[0], true);
      ExecAllClosed(deps, rank, seen + Elems(first.ran), needs[1..], bound);
    }
  }

  /** The jobs a set records as completed; no set records none. */
  function Completed(seen: SeenSet?): set<string>
    reads seen
  {
    if seen == null then {} else seen.names
  }

  /** execute_job: without a set (`seen=None`) a new one is made; a
      completed job is skipped; `load_job` raises NoSuchJob for a name that
      is not a job, which is returned here; with `recurse` the jobs it needs
      run first, each through the same set, and a NoSuchJob among them
      stops the call; the job is added to the set only after it has run. */
  method ExecuteJob(log: RunLog, seen: SeenSet?, deps: map<string, seq<string>>, ghost rank: map<string, nat>,
                    jobname: string, recurse: bool) returns (missing: Option<string>)
    requires Acyclic(deps, rank)
    modifies log, seen
    ensures var o := Exec(deps, rank, old(Completed(seen)), jobname, recurse);
            log.ran == old(log.ran) + o.ran && missing == o.missing
    ensures seen != null ==>
              seen.names == old(seen.names) + Elems(Exec(deps, rank, old(seen.names), jobname, recurse).ran)
    decreases Height(deps, rank, jobname), 1
  {
    var s := seen;
    if s == null {
      s := new SeenSet();
    }
    missing := None;
    if jobname !in s.names {
      if jobname !in deps {
        return Some(jobname);
      }
      if recurse {
        missing := ExecuteAll(log, s, deps, rank, deps[jobname], Height(deps, rank, jobname));
        if missing.Some? {
          return;
        }
      }
      log.ran := log.ran + [jobname];
      s.names := s.names + {jobname};
    }
  }

  /** The `for need in jobobj.dependencies` loop, left at the first need
      that raises NoSuchJob. */
  method ExecuteAll(log: RunLog, seen: SeenSet, deps: map<string, seq<string>>, ghost rank: map<string, nat>,
                    needs: seq<string>, ghost bound: nat) returns (missing: Option<string>)
    requires Acyclic(deps, rank)
    requires Below(deps, rank, needs, bound)
    modifies log, seen
    ensures var o := ExecAll(deps, rank, old(seen.names), needs, bound);
            log.ran == old(log.ran) + o.ran && seen.names == old(seen.names) + Elems(o.ran) && missing == o.missing
    decreases bound, 0
  {
    ghost var seen0, ran0 := seen.names, log.ran;
    ghost var done: seq<string> := [];
    missing := None;
    for i := 0 to |needs|
      invariant log.ran == ran0 + done && seen.names == seen0 + Elems(done) && missing.None?
      invariant After(done, ExecAll(deps, rank, seen.names, needs[i..], bound)) == ExecAll(deps, rank, seen0, needs, bound)
    {
      ghost var seen1 := seen.names;
      ghost var first := Exec(deps, rank, seen1, needs[i], true);
      assert Height(deps, rank, needs[i]) < bound;
      missing := ExecuteJob(log, seen, deps, rank, needs[i], true);
      assert log.ran == ran0 + (done + first.ran);
      if missing.Some? {
        ExecAllStop(deps, rank, seen0, needs, bound, i, done, seen1);
        ElemsAppend(done, first.ran);
        return;
      }
      ExecAllAdvance(deps, rank, seen0, needs, bound, i, done, seen1);
      done := done + first.ran;
    }
    assert needs[|needs|..] == [];
    assert ExecAll(deps, rank, seen.names, [], bound) == Outcome([], None);
  }

  // ---------------------------------------------------------------------
  // --var NAME=VALUE and --var NAME

  /** One `--var` item: split at its first `=`, or a bare name that takes
      its value from the environment and is dropped when it has none. */
  function VarAssignment(item: string, env: map<string, string>): (r: Option<(string, string)>)
    ensures '=' in item ==> r.Some? && item == r.value.0 + "=" + r.value.1 && '=' !in r.value.0
    ensures '=' !in item ==> (r.Some? <==> item in env)
    ensures '=' !in item && item in env ==> r == Some((item, env[item]))
  {
    if '=' in item then Some(SplitFirst(item, '='))
    else if item in env then Some((item, env[item]))
    else None
  }

  /** A name without `=` and any value come back from `NAME=VALUE`, even
      when the value holds further `=` characters. */
  lemma VarAssignmentRoundTrip(name: string, value: string, env: map<string, string>)
    requires '=' !in name
    ensures VarAssignment(name + "=" + value, env) == Some((name, value))
  {
    SplitFirstJoin(name, '=', value);
    assert name + "=" + value == name + ['='] + value;
  }

  /** The variables after the `for item in options.var` loop. */
  function SetVars(variables: map<string, string>, items: seq<string>, env: map<string, string>): map<string, string>
    decreases |items|
  {
    if items == [] then variables
    else
      var before := SetVars(variables, items[..|items| - 1], env);
      match VarAssignment(items[|items| - 1], env)
      case Some((name, value)) => before[name := value]
      case None => before
  }

  /** Whether an item sets the variable name. */
  predicate SetsName(item: string, env: map<string, string>, name: string) {
    VarAssignment(item, env).Some? && VarAssignment(item, env).value.0 == name
  }

  /** The last item that sets a name decides its value. */
  lemma {:induction false} SetVarsLastWins(variables: map<string, string>, items: seq<string>,
                                           env: map<string, string>, i: nat, name: string, value: string)
    requires i < |items| && VarAssignment(items[i], env) == Some((name, value))
    requires forall j :: i < j < |items| ==> !SetsName(items[j], env, name)
    ensures name in SetVars(variables, items, env) && SetVars(variables, items, env)[name] == value
    decreases |items|
  {
    if i < |items| - 1 {
      var front := items[..|items| - 1];
      assert front[i] == items[i];
      forall j | i < j < |front|
        ensures !SetsName(front[j], env, name)
      {
        assert front[j] == items[j];
      }
      SetVarsLastWins(variables, front, env, i, name, value);
      assert !SetsName(items[|items| - 1], env, name);
    }
  }

  /** A name no item sets keeps its value, or stays unset. */
  lemma {:induction false} SetVarsUnset(variables: map<string, string>, items: seq<string>,
                                        env: map<string, string>, name: string)
    requires forall j :: 0 <= j < |items| ==> !SetsName(items[j], env, name)
    ensures (name in SetVars(variables, items, env) <==> name in variables)
    ensures name in variables ==> SetVars(variables, items, env)[name] == variables[name]
    decreases |items|
  {
    if items != [] {
      var front := items[..|items| - 1];
      forall j | 0 <= j < |front|
        ensures !SetsName(front[j], env, name)
      {
        assert front[j] == items[j];
      }
      SetVarsUnset(variables, front, env, name);
      assert !SetsName(items[|items| - 1], env, name);
    }
  }

  /** The loop over `options.var`. */
  method ApplyVars(variables: map<string, string>, items: seq<string>, env: map<string, string>)
    returns (r: map<string, string>)
    ensures r == SetVars(variables, items, env)
  {
    r := variables;
    for i := 0 to |items|
      invariant r == SetVars(variables, items[..i], env)
    {
      SetVarsPrefix(variables, items, i, env);
      var a := VarAssignment(items[i], env);
      if a.Some? {
        r := r[a.value.0 := a.value.1];
      }
    }
    assert items[..|items|] == items;
  }

  /** One more item of the loop applies that item's assignment, if any. */
  lemma SetVarsPrefix(variables: map<string, string>, items: seq<string>, i: nat, env: map<string, string>)
    requires i < |items|
    ensures var before := SetVars(variables, items[..i], env);
            SetVars(variables, items[..i + 1], env)
            == match VarAssignment(items[i], env)
               case Some((name, value)) => before[name := value]
               case None => before
  {
    assert items[..i + 1][..i] == items[..i];
  }

  // ---------------------------------------------------------------------
  // --parallel INDEX/TOTAL

  /** Why a `--parallel` request is refused: the job is not parallel
      enabled, a bound is out of range (the message `die` prints), or the
      text does not split or convert (a Python exception). */
  datatype ParallelError =
    | NotParallel(job: string)
    | Die(message: string)
    | Python(error: PyError)

  /** The `--parallel "i/t"` check for a job whose `parallel` entry is
      `parallel` (Null when absent): both numbers at least 1 and i <= t. */
  function CheckParallel(jobname: string, parallel: Value, spec: string): (r: Result<(int, int), ParallelError>)
    ensures r.Ok? <==> parallel != Null && '/' in spec
                       && ConfigLoader.PyInt(SplitFirst(spec, '/').0).Ok?
                       && ConfigLoader.PyInt(SplitFirst(spec, '/').1).Ok?
                       && 1 <= ConfigLoader.PyInt(SplitFirst(spec, '/').0).value
                          <= ConfigLoader.PyInt(SplitFirst(spec, '/').1).value
    ensures r.Ok? ==> r.value == (ConfigLoader.PyInt(SplitFirst(spec, '/').0).value,
                                  ConfigLoader.PyInt(SplitFirst(spec, '/').1).value)
    ensures parallel == Null ==> r == Err(NotParallel(jobname))
  {
    if parallel == Null then Err(NotParallel(jobname))
    else if '/' !in spec then Err(Python(ValueError))  // too few values to unpack
    else
      var (first, second) := SplitFirst(spec, '/');
      match (ConfigLoader.PyInt(first), ConfigLoader.PyInt(second))
      case (Err(e), _) => Err(Python(e))
      case (_, Err(e)) => Err(Python(e))
      case (Ok(pindex), Ok(ptotal)) =>
        if pindex < 1 then Err(Die("CI_NODE_INDEX must be > 0"))
        else if ptotal < 1 then Err(Die("CI_NODE_TOTAL must be > 1"))
        else if pindex > ptotal then
          Err(Die("CI_NODE_INDEX must be <= CI_NODE_TOTAL, (got " + IntToString(pindex) + "/" + IntToString(ptotal) + ")"))
        else Ok((pindex, ptotal))
  }

  /** Any index and total with 1 <= index <= total, written as numerals, are
      accepted for a parallel job and read back. */
  lemma ParallelRoundTrip(jobname: string, parallel: Value, index: nat, total: nat)
    requires parallel != Null && 1 <= index <= total
    ensures CheckParallel(jobname, parallel, NatToString(index) + "/" + NatToString(total)) == Ok((index, total))
  {
    var a := NatToString(index);
    forall k | 0 <= k < |a|
      ensures a[k] != '/'
    {
      assert IsDigit(a[k]);
    }
    SplitFirstJoin(a, '/', NatToString(total));
    assert a + "/" + NatToString(total) == a + ['/'] + NatToString(total);
    ParseNatToString(index);
    ParseNatToString(total);
  }

  /** `int()` skips whitespace, so `1/ 2` selects the first of two. */
  lemma ParallelSpaced()
    ensures CheckParallel("job", Int(2), "1/ 2") == Ok((1, 2))
  {
    SplitFirstJoin("1", '/', " 2");
    assert "1/ 2" == "1" + ['/'] + " 2";
    assert IsNumeric("1") && ParseNat("1") == 1;
    ConfigLoader.PyIntLeadingSpace();
  }

  /** An index above the total is refused with the numbers in the message. */
  lemma ParallelIndexAboveTotal()
    ensures CheckParallel("job", Int(2), "3/2") == Err(Die("CI_NODE_INDEX must be <= CI_NODE_TOTAL, (got 3/2)"))
  {
    SplitFirstJoin("3", '/', "2");
    assert "3/2" == "3" + ['/'] + "2";
    assert IsNumeric("3") && ParseNat("3") == 3;
    assert IsNumeric("2") && ParseNat("2") == 2;
    assert ConfigLoader.PyInt("3") == Ok(3) && ConfigLoader.PyInt("2") == Ok(2);
    assert IntToString(3) == "3" && IntToString(2) == "2";
    assert SplitFirst("3/2", '/') == ("3", "2");
    assert "CI_NODE_INDEX must be <= CI_NODE_TOTAL, (got " + "3" + "/" + "2" + ")"
        == "CI_NODE_INDEX must be <= CI_NODE_TOTAL, (got 3/2)";
  }
}
