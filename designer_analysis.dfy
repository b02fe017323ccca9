/** The greedy capacity search of the pipeline designer
    (designer/PipelineDesigner/analysis.py).

    The search drives the tick simulator through sim.run(), and reads
    attributes the simulator in designer/PipelineDesigner/simulator.py does
    not define (sim.duration(), task.runner, task.ended()). Those are inputs
    here: `run` gives the makespan sim.run() reports for a vector of runner
    capacities and a number of loaded pipelines, and the stressed runners and
    the runners of the last-ending tasks are functions of the simulation's
    most recent run. The 1.1 and 1.3 factors are exact fractions. */
module DesignerAnalysis {
  import opened Wrappers
  import Text
  import opened DesignerSimulator

  // ---------------------------------------------------------------------
  // increase_runner's arithmetic

  function Max(a: int, b: int): int {
    if a >= b then a else b
  }

  /** `int(max(1.1 * c, minimum + c))`: the larger of 110% of c (rounded
      down) and `minimum` more than c. */
  function IncreasedConcurrency(c: int, minimum: int): (r: int)
    requires minimum > 0
    ensures r - c >= minimum
    ensures 10 * r >= 11 * c - 9 && 10 * r <= Max(11 * c, 10 * (minimum + c))
    ensures r == minimum + c || 10 * r > 11 * c - 10
  {
    Max(11 * c / 10, minimum + c)
  }

  /** The minimum bump of pass `passes`, computed after the increment: two
      on the first pass and one afterwards. */
  function EarlyBump(passes: int): (m: int)
    requires passes >= 2
    ensures m >= 1
    ensures passes == 2 ==> m == 2
    ensures passes > 2 ==> m == 1
  {
    Max(1, 4 - passes)
  }

  /** `duration > max(1.3 * single, 40 + single)`. */
  predicate TooSlow(duration: int, single: int) {
    10 * duration > 13 * single && duration > 40 + single
  }

  /** `duration < max(1.3 * single, 40 + single)`. */
  predicate FastEnough(duration: int, single: int) {
    10 * duration < 13 * single || duration < 40 + single
  }

  // ---------------------------------------------------------------------
  // get_contended_runners

  /** Some cause in the ledger contains "runner". */
  predicate RunnerCause(d: Ledger) {
    exists j :: 0 <= j < |d| && Text.Contains(d[j].0, "runner")
  }

  /** A delayed task whose get_delays reports a cause containing "runner"
      (an "inherited X" entry counts when X contains it). */
  predicate Stressing(ts: seq<Task>, i: nat)
    requires NeedsBefore(ts) && i < |ts|
  {
    ts[i].delays != [] && RunnerCause(GetDelays(ts, i))
  }

  /** The runners named by the listed tasks. */
  function RunnersOf(runnerOf: seq<nat>, listed: seq<nat>): set<nat>
    requires forall k :: 0 <= k < |listed| ==> listed[k] < |runnerOf|
  {
    set k | 0 <= k < |listed| :: runnerOf[listed[k]]
  }

  lemma RunnersOfSnoc(runnerOf: seq<nat>, listed: seq<nat>, i: nat)
    requires forall k :: 0 <= k < |listed| ==> listed[k] < |runnerOf|
    requires i < |runnerOf|
    ensures RunnersOf(runnerOf, listed + [i]) == RunnersOf(runnerOf, listed) + {runnerOf[i]}
  {
    var l := listed + [i];
    assert l[|listed|] == i;
    forall x | x in RunnersOf(runnerOf, listed)
      ensures x in RunnersOf(runnerOf, l)
    {
      var k :| 0 <= k < |listed| && runnerOf[listed[k]] == x;
      assert l[k] == listed[k];
    }
  }

  /** The inner loop of get_contended_runners over one delayed task's
      get_delays entries: the first entry naming "runner" stresses the
      task's runner (and lists the task if the runner is new), and any entry
      at all marks the runner critical when the task is on the critical
      path. */
  method ScanDelays(delays: Ledger, runner: nat, onPath: bool, task: nat,
                    stressed0: set<nat>, critical0: set<nat>, listed0: seq<nat>)
    returns (stressed: set<nat>, critical: set<nat>, listed: seq<nat>)
    ensures stressed == stressed0 + (if RunnerCause(delays) then {runner} else {})
    ensures listed == listed0 + (if RunnerCause(delays) && runner !in stressed0 then [task] else [])
    ensures critical == critical0 + (if delays != [] && onPath then {runner} else {})
  {
    stressed, critical, listed := stressed0, critical0, listed0;
    var k := 0;
    while k < |delays|
      invariant k <= |delays|
      invariant var hit := exists j :: 0 <= j < k && Text.Contains(delays[j].0, "runner");
        stressed == stressed0 + (if hit then {runner} else {}) &&
        listed == listed0 + (if hit && runner !in stressed0 then [task] else [])
      invariant critical == critical0 + (if k > 0 && onPath then {runner} else {})
    {
      if Text.Contains(delays[k].0, "runner") {
        if runner !in stressed {
          stressed := stressed + {runner};
          listed := listed + [task];
        }
      }
      if onPath {
        if runner !in critical {
          critical := critical + {runner};
        }
      }
      k := k + 1;
    }
  }

  /** get_contended_runners: `runnerOf[i]` is task i's runner. Returns the
      critical runners (runners of delayed tasks on the critical path), the
      stressed runners, and for each stressed runner the first task that
      stressed it. */
  method GetContendedRunners(ts: seq<Task>, runnerOf: seq<nat>, cpath: seq<string>)
    returns (critical: set<nat>, stressed: set<nat>, runnerDelayed: seq<nat>)
    requires NeedsBefore(ts) && |runnerOf| == |ts|
    ensures stressed == set i | 0 <= i < |ts| && Stressing(ts, i) :: runnerOf[i]
    ensures critical == set i | 0 <= i < |ts| && ts[i].delays != [] && ts[i].name in cpath :: runnerOf[i]
    ensures forall k :: 0 <= k < |runnerDelayed| ==> runnerDelayed[k] < |ts| && Stressing(ts, runnerDelayed[k])
    ensures forall k :: 0 <= k < |runnerDelayed| ==>
      forall j :: 0 <= j < runnerDelayed[k] && Stressing(ts, j) ==> runnerOf[j] != runnerOf[runnerDelayed[k]]
    ensures forall a, b :: 0 <= a < b < |runnerDelayed| ==> runnerDelayed[a] < runnerDelayed[b]
    ensures stressed == RunnersOf(runnerOf, runnerDelayed)
  {
    critical, stressed, runnerDelayed := {}, {}, [];
    var i := 0;
    while i < |ts|
      invariant i <= |ts|
      invariant stressed == set j | 0 <= j < i && Stressing(ts, j) :: runnerOf[j]
      invariant critical == set j | 0 <= j < i && ts[j].delays != [] && ts[j].name in cpath :: runnerOf[j]
      invariant forall k :: 0 <= k < |runnerDelayed| ==> runnerDelayed[k] < i && Stressing(ts, runnerDelayed[k])
      invariant forall k :: 0 <= k < |runnerDelayed| ==>
        forall j :: 0 <= j < runnerDelayed[k] && Stressing(ts, j) ==> runnerOf[j] != runnerOf[runnerDelayed[k]]
      invariant forall a, b :: 0 <= a < b < |runnerDelayed| ==> runnerDelayed[a] < runnerDelayed[b]
      invariant stressed == RunnersOf(runnerOf, runnerDelayed)
    {
      if ts[i].delays != [] {
        var delays := GetDelays(ts, i);
        assert delays != [] by {
          GetDelaysKeys(ts, i, |ts[i].needs|);
          assert ts[i].delays[0].cause in Keys(delays);
        }
        ghost var listed0 := runnerDelayed;
        stressed, critical, runnerDelayed :=
          ScanDelays(delays, runnerOf[i], ts[i].name in cpath, i, stressed, critical, runnerDelayed);
        if runnerDelayed != listed0 {
          RunnersOfSnoc(runnerOf, listed0, i);
        }
      }
      i := i + 1;
    }
  }

  // ---------------------------------------------------------------------
  // Capacity kept per runner name

  /** The capacity added, since `c0`, to the runners named n among the
      first m. */
  function Gain(names: seq<string>, c: seq<int>, c0: seq<int>, n: string, m: nat): int
    requires |c| == |c0| == |names| && m <= |names|
  {
    if m == 0 then 0
    else Gain(names, c, c0, n, m - 1) + (if names[m - 1] == n then c[m - 1] - c0[m - 1] else 0)
  }

  lemma {:induction false} GainUpdate(names: seq<string>, c: seq<int>, c0: seq<int>, r: nat, a: int, n: string, m: nat)
    requires |c| == |c0| == |names| && m <= |names| && r < |c|
    ensures Gain(names, c[r := c[r] + a], c0, n, m) == Gain(names, c, c0, n, m) + (if r < m && names[r] == n then a else 0)
  {
    if m > 0 {
      GainUpdate(names, c, c0, r, a, n, m - 1);
    }
  }

  lemma {:induction false} GainNone(names: seq<string>, c: seq<int>, n: string, m: nat)
    requires |c| == |names| && m <= |names|
    ensures Gain(names, c, c, n, m) == 0
  {
    if m > 0 {
      GainNone(names, c, n, m - 1);
    }
  }

  /** `added` holds, for every runner name, exactly the capacity kept on the
      runners of that name since c0. */
  ghost predicate Accounted(added: map<string, int>, names: seq<string>, c: seq<int>, c0: seq<int>)
    requires |c| == |c0| == |names|
  {
    (forall n :: n in added <==> n in names) &&
    forall n :: n in added ==> added[n] == Gain(names, c, c0, n, |names|)
  }

  ghost predicate NoLess(c: seq<int>, c0: seq<int>)
    requires |c| == |c0|
  {
    forall r :: 0 <= r < |c| ==> c[r] >= c0[r]
  }

  /** `added` has grown from `added0` by exactly the capacity kept since c0. */
  ghost predicate Grew(added: map<string, int>, added0: map<string, int>, names: seq<string>, c: seq<int>, c0: seq<int>)
    requires |c| == |c0| == |names|
  {
    (forall n :: n in added <==> n in added0) &&
    forall n :: n in added0 ==> added[n] == added0[n] + Gain(names, c, c0, n, |names|)
  }

  lemma GrewNone(added: map<string, int>, names: seq<string>, c: seq<int>)
    requires |c| == |names|
    ensures Grew(added, added, names, c, c)
  {
    forall n | n in added {
      GainNone(names, c, n, |names|);
    }
  }

  lemma GrewBump(added: map<string, int>, added0: map<string, int>, names: seq<string>, c: seq<int>, c0: seq<int>, r: nat, a: int)
    requires |c| == |c0| == |names| && r < |c| && names[r] in added
    requires Grew(added, added0, names, c, c0)
    ensures Grew(added[names[r] := added[names[r]] + a], added0, names, c[r := c[r] + a], c0)
  {
    forall n | n in added0 {
      GainUpdate(names, c, c0, r, a, n, |names|);
    }
  }

  // ---------------------------------------------------------------------
  // The outcome of discover_resource_increase

  datatype SearchResult =
    | Found(currentPipelines: nat, currentDuration: int, newPipelines: nat, newDuration: int, added: map<string, int>)
    | IndexError
    | OutOfFuel

  /** The parts of SimulatedResources the search reads and changes: the
      runners' capacities and the number of pipelines loaded. */
  class SearchSim {
    const names: seq<string>
    const run: (seq<int>, nat) -> nat
    var concurrent: seq<int>
    var loaded: nat
    /** The capacities at the most recent sim.run(). */
    var lastRun: seq<int>

    ghost predicate Valid()
      reads this
    {
      |concurrent| == |names| && |lastRun| == |names|
    }

    constructor (names: seq<string>, concurrent: seq<int>, run: (seq<int>, nat) -> nat)
      requires |concurrent| == |names|
      ensures Valid()
      ensures this.names == names && this.concurrent == concurrent && this.run == run
      ensures loaded == 1 && lastRun == concurrent
    {
      this.names := names;
      this.concurrent := concurrent;
      this.run := run;
      loaded := 1;
      lastRun := concurrent;
    }

    /** increase_runner: raise runner r to IncreasedConcurrency and re-run. */
    method IncreaseRunner(r: nat, minimum: int) returns (newDuration: nat, additional: int)
      requires Valid() && r < |concurrent| && minimum > 0
      modifies this
      ensures Valid() && loaded == old(loaded)
      ensures additional >= minimum
      ensures old(concurrent)[r] + additional == IncreasedConcurrency(old(concurrent)[r], minimum)
      ensures concurrent == old(concurrent)[r := old(concurrent)[r] + additional]
      ensures newDuration == run(concurrent, loaded) && lastRun == concurrent
    {
      var increase := IncreasedConcurrency(concurrent[r], minimum);
      additional := increase - concurrent[r];
      concurrent := concurrent[r := increase];
      newDuration := run(concurrent, loaded);
      lastRun := concurrent;
    }

    /** The probe loop: add one pipeline at a time until the makespan exceeds
        the acceptable duration. Returns the last passing pipeline count and
        the duration before the failing one; `ok` is false when `fuel`
        probes all passed. */
    method Probe(single: int, fuel: nat) returns (pipelines: nat, previous: int, ok: bool)
      requires Valid()
      ensures 1 <= pipelines <= fuel + 1
      ensures forall k :: 2 <= k <= pipelines ==> !TooSlow(run(concurrent, k), single)
      ensures ok ==> TooSlow(run(concurrent, pipelines + 1), single)
      ensures ok ==> previous == if pipelines == 1 then single else run(concurrent, pipelines)
      ensures !ok ==> pipelines == fuel + 1
    {
      pipelines := 1;
      var duration: int := single;
      previous := single;
      while pipelines <= fuel
        invariant 1 <= pipelines <= fuel + 1
        invariant forall k :: 2 <= k <= pipelines ==> !TooSlow(run(concurrent, k), single)
        invariant duration == if pipelines == 1 then single else run(concurrent, pipelines)
      {
        previous := duration;
        duration := run(concurrent, pipelines + 1);
        if TooSlow(duration, single) {
          return pipelines, previous, true;
        }
        pipelines := pipelines + 1;
      }
      ok := false;
    }

    /** What a pass keeps from its start (capacities c0, account added0,
        makespan last0): capacities only grew and the account records each
        gain (one entry per runner name); `last` only fell, and it fell exactly when `helped`, in which
        case it is the makespan of the current capacities. */
    ghost predicate Kept(c0: seq<int>, added0: map<string, int>, last0: nat,
                         added: map<string, int>, last: nat, helped: bool)
      reads this
    {
      Valid() && |c0| == |names| && (forall n :: n in added0 <==> n in names) &&
      Grew(added, added0, names, concurrent, c0) && NoLess(concurrent, c0) &&
      last <= last0 && (helped <==> last < last0) && (helped ==> last == run(concurrent, loaded))
    }

    /** The inner loop for one stressed runner r: raise it while the
        makespan strictly drops; the first raise that does not help is
        undone. No other runner changes. */
    method RaiseWhileHelping(r: nat, minimum: int, ghost c0: seq<int>, ghost added0: map<string, int>, ghost last0: nat,
                             added1: map<string, int>, last1: nat, helped1: bool)
      returns (added: map<string, int>, last: nat, newDuration: nat, helped: bool)
      requires Kept(c0, added0, last0, added1, last1, helped1) && r < |names| && minimum > 0
      modifies this
      ensures Kept(c0, added0, last0, added, last, helped) && loaded == old(loaded)
      ensures forall q :: 0 <= q < |names| && q != r ==> concurrent[q] == old(concurrent)[q]
      ensures last <= last1 && (last < last1 ==> last == run(concurrent, loaded))
      ensures !(last < last1) ==> concurrent == old(concurrent)
      ensures newDuration >= last && newDuration == run(lastRun, loaded)
    {
      added, last, helped := added1, last1, helped1;
      while true
        invariant Kept(c0, added0, last0, added, last, helped) && loaded == old(loaded)
        invariant forall q :: 0 <= q < |names| && q != r ==> concurrent[q] == old(concurrent)[q]
        invariant last <= last1 && (last == last1 ==> concurrent == old(concurrent))
        decreases last
      {
        var additional: int;
        ghost var before := concurrent;
        newDuration, additional := IncreaseRunner(r, minimum);
        if newDuration < last {
          GrewBump(added, added0, names, before, c0, r, additional);
          added := added[names[r] := added[names[r]] + additional];
          last := newDuration;
          helped := true;
        } else {
          concurrent := concurrent[r := concurrent[r] - additional];
          assert concurrent == before;
          return;
        }
      }
    }

    /** The stressed-runner loop of one pass: for each runner in `order`,
        keep raising its capacity while the makespan strictly drops; the
        first raise that does not help is undone and the loop moves on. */
    method RelieveStressed(order: seq<nat>, minimum: int, added0: map<string, int>, last0: nat)
      returns (added: map<string, int>, last: nat, newDuration: nat, helped: bool)
      requires Valid() && minimum > 0
      requires forall k :: 0 <= k < |order| ==> order[k] < |names|
      requires forall n :: n in added0 <==> n in names
      modifies this
      ensures Valid() && loaded == old(loaded)
      ensures Grew(added, added0, names, concurrent, old(concurrent))
      ensures NoLess(concurrent, old(concurrent))
      ensures forall r :: 0 <= r < |names| && r !in order ==> concurrent[r] == old(concurrent)[r]
      ensures last <= last0 && (helped <==> last < last0)
      ensures helped ==> last == run(concurrent, loaded) && order != []
      ensures !helped ==> concurrent == old(concurrent)
      ensures order != [] ==> newDuration >= last && newDuration == run(lastRun, loaded)
    {
      ghost var c0 := concurrent;
      added, last, newDuration, helped := added0, last0, 0, false;
      GrewNone(added, names, c0);
      var i := 0;
      while i < |order|
        invariant i <= |order| && Kept(c0, added0, last0, added, last, helped) && loaded == old(loaded)
        invariant forall r :: 0 <= r < |names| && r !in order[..i] ==> concurrent[r] == c0[r]
        invariant i > 0 ==> newDuration >= last && newDuration == run(lastRun, loaded)
        invariant !helped ==> concurrent == c0
        invariant i == 0 ==> !helped
      {
        assert order[..i + 1] == order[..i] + [order[i]];
        added, last, newDuration, helped := RaiseWhileHelping(order[i], minimum, c0, added0, last0, added, last, helped);
        i := i + 1;
      }
      assert order[..i] == order;
    }

    /** The fallback: scale the runner of every last-ending task by at least
        one and adopt each new makespan, without undoing anything. */
    method ScaleStuck(stuck: seq<nat>, added0: map<string, int>, last0: nat)
      returns (added: map<string, int>, last: nat, newDuration: nat)
      requires Valid() && stuck != []
      requires forall k :: 0 <= k < |stuck| ==> stuck[k] < |names|
      requires forall n :: n in added0 <==> n in names
      modifies this
      ensures Valid() && loaded == old(loaded)
      ensures Grew(added, added0, names, concurrent, old(concurrent))
      ensures NoLess(concurrent, old(concurrent))
      ensures forall r :: 0 <= r < |names| ==> (concurrent[r] > old(concurrent)[r] <==> r in stuck)
      ensures last == newDuration == run(concurrent, loaded) && lastRun == concurrent
    {
      ghost var c0 := concurrent;
      added, last := added0, last0;
      GrewNone(added, names, c0);
      newDuration := 0;
      var i := 0;
      while i < |stuck|
        invariant Valid() && loaded == old(loaded) && i <= |stuck|
        invariant Grew(added, added0, names, concurrent, c0)
        invariant forall r :: 0 <= r < |names| ==> (concurrent[r] > c0[r] <==> r in stuck[..i]) && concurrent[r] >= c0[r]
        invariant i > 0 ==> last == newDuration == run(concurrent, loaded) && lastRun == concurrent
      {
        var additional: int;
        ghost var before := concurrent;
        newDuration, additional := IncreaseRunner(stuck[i], 1);
        GrewBump(added, added0, names, before, c0, stuck[i], additional);
        added := added[names[stuck[i]] := added[names[stuck[i]]] + additional];
        last := newDuration;
        assert stuck[..i + 1] == stuck[..i] + [stuck[i]];
        i := i + 1;
      }
      assert stuck[..i] == stuck;
    }

    /** discover_resource_increase. `single` is sim.duration() for one
        pipeline; `stressedOf` and `stuckOf` give, from the capacities of the
        most recent run and the pipelines loaded, the stressed runners in
        iteration order and the runners of the tasks tied for the latest
        end. At most `fuel` probes and `fuel` passes are made. */
    method Discover(single: int, aim: int,
                    stressedOf: (seq<int>, nat) -> seq<nat>, stuckOf: (seq<int>, nat) -> seq<nat>, fuel: nat)
      returns (result: SearchResult)
      requires Valid() && loaded == 1
      requires forall c, p, k :: 0 <= k < |stressedOf(c, p)| ==> stressedOf(c, p)[k] < |names|
      requires forall c, p, k :: 0 <= k < |stuckOf(c, p)| ==> stuckOf(c, p)[k] < |names|
      modifies this
      ensures Valid()
      ensures result.Found? ==>
        FastEnough(result.newDuration, single) && result.newDuration == run(lastRun, loaded) &&
        (result.currentDuration == if result.currentPipelines == 1 then single
                                   else run(old(concurrent), result.currentPipelines)) &&
        Accounted(result.added, names, concurrent, old(concurrent)) &&
        NoLess(concurrent, old(concurrent)) &&
        result.currentPipelines >= 1 &&
        (forall k :: 2 <= k <= result.currentPipelines ==> !TooSlow(run(old(concurrent), k), single)) &&
        TooSlow(run(old(concurrent), result.currentPipelines + 1), single) &&
        result.newPipelines == 1 + Max(result.currentPipelines, aim - 1) && result.newPipelines == loaded
    {
      ghost var c0 := concurrent;
      var pipelines, previous, ok := Probe(single, fuel);
      if !ok {
        return SearchResult.OutOfFuel;
      }
      loaded := pipelines + 1;
      var currentPipelines, currentDuration := pipelines, previous;
      var newPipelines := 1 + pipelines;

      var added: map<string, int> := map[];
      var j := 0;
      while j < |names|
        invariant j <= |names|
        invariant forall n :: n in added <==> n in names[..j]
        invariant forall n :: n in added ==> added[n] == 0
      {
        added := added[names[j] := 0];
        assert names[..j + 1] == names[..j] + [names[j]];
        j := j + 1;
      }
      assert names[..j] == names;
      assert Accounted(added, names, concurrent, c0) by {
        forall n | n in added { GainNone(names, c0, n, |names|); }
      }

      while pipelines < aim - 1
        invariant loaded == newPipelines == pipelines + 1 && currentPipelines <= pipelines
        invariant pipelines == currentPipelines || pipelines <= aim - 1
        invariant concurrent == c0
        decreases aim - pipelines
      {
        loaded := loaded + 1;
        newPipelines := newPipelines + 1;
        pipelines := pipelines + 1;
      }

      var last: nat := run(concurrent, loaded);
      lastRun := concurrent;
      result := Passes(single, stressedOf, stuckOf, fuel, c0, added, last);
      if result.Found? {
        result := result.(currentPipelines := currentPipelines, currentDuration := currentDuration,
                          newPipelines := newPipelines);
      }
    }

    /** The passes of discover_resource_increase, at most `fuel` of them:
        relieve the stressed runners, fall back to scaling the last-ending
        tasks' runners when that did not help, and stop once the makespan is
        fast enough. The account stays exact relative to c0 throughout; a
        Found result carries only its makespan and account (its pipeline
        fields are 0). */
    method Passes(single: int, stressedOf: (seq<int>, nat) -> seq<nat>, stuckOf: (seq<int>, nat) -> seq<nat>,
                  fuel: nat, ghost c0: seq<int>, added0: map<string, int>, last0: nat)
      returns (result: SearchResult)
      requires Valid() && |c0| == |names|
      requires forall c, p, k :: 0 <= k < |stressedOf(c, p)| ==> stressedOf(c, p)[k] < |names|
      requires forall c, p, k :: 0 <= k < |stuckOf(c, p)| ==> stuckOf(c, p)[k] < |names|
      requires Accounted(added0, names, concurrent, c0) && NoLess(concurrent, c0)
      modifies this
      ensures Valid() && loaded == old(loaded)
      ensures result.Found? ==>
        FastEnough(result.newDuration, single) && result.newDuration == run(lastRun, loaded) &&
        Accounted(result.added, names, concurrent, c0) && NoLess(concurrent, c0)
    {
      var added, last := added0, last0;
      var newDuration: nat := 0;
      var passes := 1;
      while passes <= fuel
        invariant Valid() && loaded == old(loaded)
        invariant Accounted(added, names, concurrent, c0)
        invariant NoLess(concurrent, c0)
        decreases fuel - passes
      {
        passes := passes + 1;
        var bump := EarlyBump(passes);
        var stressed := stressedOf(lastRun, loaded);
        var helped: bool;
        ghost var before, addedBefore := concurrent, added;
        added, last, newDuration, helped := RelieveStressed(stressed, bump, added, last);
        AccountedChain(added, addedBefore, names, concurrent, before, c0);
        if !helped {
          var stuck := stuckOf(lastRun, loaded);
          if stuck == [] {
            return SearchResult.IndexError;
          }
          ghost var before2, addedBefore2 := concurrent, added;
          added, last, newDuration := ScaleStuck(stuck, added, last);
          AccountedChain(added, addedBefore2, names, concurrent, before2, c0);
        }
        if FastEnough(newDuration, single) {
          assert newDuration == run(lastRun, loaded);
          return Found(0, 0, 0, newDuration, added);
        }
      }
      return SearchResult.OutOfFuel;
    }
  }

  lemma {:induction false} GainChain(names: seq<string>, c: seq<int>, c1: seq<int>, c0: seq<int>, n: string, m: nat)
    requires |c| == |c1| == |c0| == |names| && m <= |names|
    ensures Gain(names, c, c0, n, m) == Gain(names, c, c1, n, m) + Gain(names, c1, c0, n, m)
  {
    if m > 0 {
      GainChain(names, c, c1, c0, n, m - 1);
    }
  }

  /** A pass's helpers account relative to the capacities at the start of
      the pass; chaining them gives the account since the search began. */
  lemma AccountedChain(added: map<string, int>, added1: map<string, int>, names: seq<string>, c: seq<int>, c1: seq<int>, c0: seq<int>)
    requires |c| == |c1| == |c0| == |names|
    requires Accounted(added1, names, c1, c0) && Grew(added, added1, names, c, c1)
    ensures Accounted(added, names, c, c0)
  {
    forall n | n in added {
      GainChain(names, c, c1, c0, n, |names|);
    }
  }
}
