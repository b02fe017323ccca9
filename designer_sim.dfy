/** The pipeline designer's tick simulator (designer/PipelineDesigner/simulator.py).

    Tasks and runners live in two arenas owned by SimulatedResources: a task's
    `needs` and a runner's `tasks` list hold indices into the task arena, in
    place of the object references the Python code keeps. A `needs` index
    always names an earlier task, because a task can only need tasks that
    already exist when it is added. */
module DesignerSimulator {
  import opened Wrappers
  import Text

  datatype Delay = Delay(cause: string, cost: int)

  datatype Task = Task(
    name: string,
    image: bool,
    cost: int,
    remaining: int,
    needs: seq<nat>,
    tags: seq<string>,
    pipeline: int,
    started: int,
    delays: seq<Delay>)
  {
    /** SimulatedTask.reset. */
    function Reset(): Task {
      this.(remaining := cost, delays := [], started := 0)
    }
  }

  datatype Runner = Runner(
    name: string,
    tags: seq<string>,
    images: bool,
    concurrent: int,
    time: int,
    tasks: seq<nat>)
  {
    /** SimulatedRunner.reset. */
    function Reset(): Runner {
      this.(tasks := [], time := 0)
    }
  }

  /** The whole simulated world: the two arenas. */
  datatype World = World(tasks: seq<Task>, runners: seq<Runner>)

  /** The per-job build times; a job without an entry costs one tick. */
  datatype CostProfile = CostProfile(jobs: map<string, int>) {
    function GetCost(jobname: string): (c: int)
      ensures jobname !in jobs ==> c == 1
      ensures jobname in jobs ==> c == jobs[jobname]
    {
      if jobname in jobs then jobs[jobname] else 1
    }
  }

  // ---------------------------------------------------------------------
  // Arena well-formedness

  predicate NeedsBefore(ts: seq<Task>) {
    forall i, k :: 0 <= i < |ts| && 0 <= k < |ts[i].needs| ==> ts[i].needs[k] < i
  }

  predicate SlotsIn(list: seq<nat>, n: nat) {
    forall k :: 0 <= k < |list| ==> list[k] < n
  }

  predicate SlotsValid(ts: seq<Task>, rs: seq<Runner>) {
    forall r :: 0 <= r < |rs| ==> SlotsIn(rs[r].tasks, |ts|)
  }

  predicate WellFormed(w: World) {
    NeedsBefore(w.tasks) && SlotsValid(w.tasks, w.runners)
  }

  // ---------------------------------------------------------------------
  // The delay ledger returned by get_delays: an insertion-ordered dict

  type Ledger = seq<(string, int)>

  function Keys(l: Ledger): set<string> {
    set j | 0 <= j < |l| :: l[j].0
  }

  /** `l.get(k, 0)`. */
  function Lookup(l: Ledger, k: string): int {
    if l == [] then 0 else if l[0].0 == k then l[0].1 else Lookup(l[1..], k)
  }

  /** The sum of all values. */
  function Total(l: Ledger): int {
    if l == [] then 0 else l[0].1 + Total(l[1..])
  }

  lemma KeysCons(l: Ledger)
    requires l != []
    ensures Keys(l) == {l[0].0} + Keys(l[1..])
  {
    forall q | q in Keys(l) ensures q in {l[0].0} + Keys(l[1..]) {
      var j :| 0 <= j < |l| && l[j].0 == q;
      if j > 0 { assert l[1..][j - 1].0 == q; }
    }
    forall q | q in Keys(l[1..]) ensures q in Keys(l) {
      var j :| 0 <= j < |l[1..]| && l[1..][j].0 == q;
      assert l[j + 1].0 == q;
    }
  }

  /** `if k not in l: l[k] = 0` followed by `l[k] += v`. */
  function Bump(l: Ledger, k: string, v: int): (r: Ledger)
    ensures Keys(r) == Keys(l) + {k}
    ensures forall q :: Lookup(r, q) == Lookup(l, q) + (if q == k then v else 0)
    ensures Total(r) == Total(l) + v
  {
    if l == [] then
      var r := [(k, v)];
      assert Keys(r) == {k} by { KeysCons(r); }
      r
    else if l[0].0 == k then
      var r := [(k, l[0].1 + v)] + l[1..];
      KeysCons(l);
      KeysCons(r);
      assert r[1..] == l[1..];
      r
    else
      var t := Bump(l[1..], k, v);
      var r := [l[0]] + t;
      KeysCons(l);
      KeysCons(r);
      assert r[1..] == t;
      r
  }

  function Pos(c: int): int {
    if c > 0 then c else 0
  }

  /** The first loop of get_delays: own delays summed by cause, in order of
      first appearance, with a zero entry for a cause whose costs are not
      positive. */
  function OwnDelays(ds: seq<Delay>): Ledger {
    if ds == [] then []
    else
      var d := ds[|ds| - 1];
      Bump(OwnDelays(ds[..|ds| - 1]), d.cause, Pos(d.cost))
  }

  /** The positive costs of the delays with the given cause. */
  function CauseCost(ds: seq<Delay>, cause: string): int {
    if ds == [] then 0
    else CauseCost(ds[..|ds| - 1], cause) + (if ds[|ds| - 1].cause == cause then Pos(ds[|ds| - 1].cost) else 0)
  }

  function Causes(ds: seq<Delay>): set<string> {
    set j | 0 <= j < |ds| :: ds[j].cause
  }

  lemma {:induction false} OwnDelaysMeaning(ds: seq<Delay>)
    ensures Keys(OwnDelays(ds)) == Causes(ds)
    ensures forall q :: Lookup(OwnDelays(ds), q) == CauseCost(ds, q)
  {
    if ds != [] {
      var init := ds[..|ds| - 1];
      OwnDelaysMeaning(init);
      assert Causes(ds) == Causes(init) + {ds[|ds| - 1].cause} by {
        forall q | q in Causes(ds) ensures q in Causes(init) + {ds[|ds| - 1].cause} {
          var j :| 0 <= j < |ds| && ds[j].cause == q;
          if j < |ds| - 1 { assert init[j].cause == q; }
        }
        forall q | q in Causes(init) ensures q in Causes(ds) {
          var j :| 0 <= j < |init| && init[j].cause == q;
          assert ds[j].cause == q;
        }
      }
    }
  }

  /** The inner loop over `needed_delays.items()`: every item adds its cost
      under the single key `source`. */
  function Inherit(acc: Ledger, source: string, nd: Ledger): Ledger {
    if nd == [] then acc
    else Bump(Inherit(acc, source, nd[..|nd| - 1]), source, nd[|nd| - 1].1)
  }

  lemma {:induction false} TotalSnoc(l: Ledger)
    requires l != []
    ensures Total(l) == Total(l[..|l| - 1]) + l[|l| - 1].1
  {
    if |l| > 1 {
      TotalSnoc(l[1..]);
      assert l[1..][..|l| - 2] == l[..|l| - 1][1..];
    }
  }

  /** The items loop adds the need's total under "inherited <name>", and
      creates that key only when the need reported any delay. */
  lemma {:induction false} InheritMeaning(acc: Ledger, source: string, nd: Ledger)
    ensures Keys(Inherit(acc, source, nd)) == Keys(acc) + (if nd == [] then {} else {source})
    ensures forall q :: Lookup(Inherit(acc, source, nd), q) == Lookup(acc, q) + (if q == source then Total(nd) else 0)
  {
    if nd != [] {
      InheritMeaning(acc, source, nd[..|nd| - 1]);
      TotalSnoc(nd);
    }
  }

  function InheritedName(name: string): string {
    "inherited " + name
  }

  /** SimulatedTask.get_delays on task i. */
  function GetDelays(ts: seq<Task>, i: nat): Ledger
    requires NeedsBefore(ts) && i < |ts|
    decreases i, 1
  {
    InheritNeeds(ts, i, |ts[i].needs|)
  }

  /** get_delays after its own delays and the first m needs. */
  function InheritNeeds(ts: seq<Task>, i: nat, m: nat): Ledger
    requires NeedsBefore(ts) && i < |ts| && m <= |ts[i].needs|
    decreases i, 0, m
  {
    if m == 0 then OwnDelays(ts[i].delays)
    else
      var n := ts[i].needs[m - 1];
      Inherit(InheritNeeds(ts, i, m - 1), InheritedName(ts[n].name), GetDelays(ts, n))
  }

  /** The needs among the first m that reported some delay. */
  function DelayedNeeds(ts: seq<Task>, i: nat, m: nat): set<string>
    requires NeedsBefore(ts) && i < |ts| && m <= |ts[i].needs|
  {
    if m == 0 then {}
    else
      var n := ts[i].needs[m - 1];
      DelayedNeeds(ts, i, m - 1) + (if GetDelays(ts, n) != [] then {InheritedName(ts[n].name)} else {})
  }

  /** The key set of get_delays: the causes of the task's own delays, plus
      "inherited <name>" for each need that reported a delay. */
  lemma {:induction false} GetDelaysKeys(ts: seq<Task>, i: nat, m: nat)
    requires NeedsBefore(ts) && i < |ts| && m <= |ts[i].needs|
    ensures Keys(InheritNeeds(ts, i, m)) == Causes(ts[i].delays) + DelayedNeeds(ts, i, m)
  {
    if m == 0 {
      OwnDelaysMeaning(ts[i].delays);
    } else {
      var n := ts[i].needs[m - 1];
      GetDelaysKeys(ts, i, m - 1);
      InheritMeaning(InheritNeeds(ts, i, m - 1), InheritedName(ts[n].name), GetDelays(ts, n));
    }
  }

  predicate AllNonNegative(l: Ledger) {
    forall j :: 0 <= j < |l| ==> l[j].1 >= 0
  }

  lemma {:induction false} TotalNonNegative(l: Ledger)
    requires AllNonNegative(l)
    ensures Total(l) >= 0
  {
    if l != [] {
      TotalNonNegative(l[1..]);
    }
  }

  lemma {:induction false} BumpNonNegative(l: Ledger, k: string, v: int)
    requires AllNonNegative(l) && v >= 0
    ensures AllNonNegative(Bump(l, k, v))
  {
    if l != [] && l[0].0 != k {
      BumpNonNegative(l[1..], k, v);
    }
  }

  lemma {:induction false} InheritNonNegative(acc: Ledger, source: string, nd: Ledger)
    requires AllNonNegative(acc) && AllNonNegative(nd)
    ensures AllNonNegative(Inherit(acc, source, nd))
  {
    if nd != [] {
      InheritNonNegative(acc, source, nd[..|nd| - 1]);
      BumpNonNegative(Inherit(acc, source, nd[..|nd| - 1]), source, nd[|nd| - 1].1);
    }
  }

  lemma {:induction false} OwnDelaysNonNegative(ds: seq<Delay>)
    ensures AllNonNegative(OwnDelays(ds))
  {
    if ds != [] {
      OwnDelaysNonNegative(ds[..|ds| - 1]);
      BumpNonNegative(OwnDelays(ds[..|ds| - 1]), ds[|ds| - 1].cause, Pos(ds[|ds| - 1].cost));
    }
  }

  /** Every figure get_delays reports is a sum of positive costs, so none is
      negative, whatever the delays' costs were. */
  lemma {:induction false} GetDelaysNonNegative(ts: seq<Task>, i: nat, m: nat)
    requires NeedsBefore(ts) && i < |ts| && m <= |ts[i].needs|
    ensures AllNonNegative(InheritNeeds(ts, i, m))
    decreases i, m
  {
    if m == 0 {
      OwnDelaysNonNegative(ts[i].delays);
    } else {
      var n := ts[i].needs[m - 1];
      GetDelaysNonNegative(ts, i, m - 1);
      GetDelaysNonNegative(ts, n, |ts[n].needs|);
      InheritNonNegative(InheritNeeds(ts, i, m - 1), InheritedName(ts[n].name), GetDelays(ts, n));
    }
  }

  // ---------------------------------------------------------------------
  // SimulatedTask.ready

  function Ready(ts: seq<Task>, i: nat): bool
    requires NeedsBefore(ts) && i < |ts|
    decreases i, 1
  {
    NeedsReady(ts, i, |ts[i].needs|)
  }

  function NeedsReady(ts: seq<Task>, i: nat, m: nat): bool
    requires NeedsBefore(ts) && i < |ts| && m <= |ts[i].needs|
    decreases i, 0, m
  {
    m == 0 || (NeedsReady(ts, i, m - 1) && Ready(ts, ts[i].needs[m - 1]))
  }

  /** ready() recurses into the needs' ready() and never looks at their
      progress, so it holds of every task: needs never hold a task back. */
  lemma {:induction false} ReadyAlways(ts: seq<Task>, i: nat)
    requires NeedsBefore(ts) && i < |ts|
    ensures Ready(ts, i)
    decreases i, 1
  {
    NeedsReadyAlways(ts, i, |ts[i].needs|);
  }

  lemma {:induction false} NeedsReadyAlways(ts: seq<Task>, i: nat, m: nat)
    requires NeedsBefore(ts) && i < |ts| && m <= |ts[i].needs|
    ensures NeedsReady(ts, i, m)
    decreases i, 0, m
  {
    if m > 0 {
      NeedsReadyAlways(ts, i, m - 1);
      ReadyAlways(ts, ts[i].needs[m - 1]);
    }
  }

  // ---------------------------------------------------------------------
  // SimulatedRunner.active_tasks and can_execute

  /** `len(active_tasks())`: the entries of the runner's list whose task has
      a truthy `started` and work remaining (a task listed twice counts twice). */
  function Active(ts: seq<Task>, list: seq<nat>): (n: nat)
    requires SlotsIn(list, |ts|)
    ensures n <= |list|
  {
    if list == [] then 0
    else
      var t := ts[list[|list| - 1]];
      Active(ts, list[..|list| - 1]) + (if t.started != 0 && t.remaining > 0 then 1 else 0)
  }

  lemma {:induction false} ActiveNoneStarted(ts: seq<Task>, list: seq<nat>)
    requires SlotsIn(list, |ts|)
    requires forall i :: 0 <= i < |ts| ==> ts[i].started == 0
    ensures Active(ts, list) == 0
  {
    if list != [] {
      ActiveNoneStarted(ts, list[..|list| - 1]);
    }
  }

  predicate TagsFit(taskTags: seq<string>, runnerTags: seq<string>) {
    forall k :: 0 <= k < |taskTags| ==> taskTags[k] in runnerTags
  }

  predicate CanExecute(ts: seq<Task>, rn: Runner, t: Task)
    requires SlotsIn(rn.tasks, |ts|)
  {
    rn.concurrent > Active(ts, rn.tasks) && t.image == rn.images && TagsFit(t.tags, rn.tags)
  }

  /** The first runner at or after j that can execute t. */
  function FirstFit(ts: seq<Task>, rs: seq<Runner>, t: Task, j: nat): (r: Option<nat>)
    requires SlotsValid(ts, rs) && j <= |rs|
    ensures r.Some? ==> j <= r.value < |rs| && CanExecute(ts, rs[r.value], t)
    ensures r.Some? ==> forall q :: j <= q < r.value ==> !CanExecute(ts, rs[q], t)
    ensures r.None? ==> forall q :: j <= q < |rs| ==> !CanExecute(ts, rs[q], t)
    decreases |rs| - j
  {
    if j == |rs| then None
    else if CanExecute(ts, rs[j], t) then Some(j)
    else FirstFit(ts, rs, t, j + 1)
  }

  // ---------------------------------------------------------------------
  // One tick of SimulatedResources.run as functions on the world

  const RunnerDelay := Delay("runner", 1)

  /** The admission step for task i at time `now`. */
  function AdmitOne(w: World, i: nat, now: int): (r: World)
    requires WellFormed(w) && i < |w.tasks|
    ensures WellFormed(r) && |r.tasks| == |w.tasks| && |r.runners| == |w.runners|
  {
    var t := w.tasks[i];
    if t.started != 0 || !Ready(w.tasks, i) then w
    else match FirstFit(w.tasks, w.runners, t, 0)
      case Some(q) =>
        World(w.tasks[i := t.(started := now)], w.runners[q := w.runners[q].(tasks := w.runners[q].tasks + [i])])
      case None =>
        World(w.tasks[i := t.(delays := t.delays + [RunnerDelay])], w.runners)
  }

  /** The admission loop over the first n tasks. */
  function AdmitUpTo(w: World, n: nat, now: int): (r: World)
    requires WellFormed(w) && n <= |w.tasks|
    ensures WellFormed(r) && |r.tasks| == |w.tasks| && |r.runners| == |w.runners|
  {
    if n == 0 then w else AdmitOne(AdmitUpTo(w, n - 1, now), n - 1, now)
  }

  /** SimulatedRunner.tick over the first entries of a runner's list. */
  function TickList(ts: seq<Task>, list: seq<nat>): (r: seq<Task>)
    requires SlotsIn(list, |ts|)
    ensures |r| == |ts|
  {
    if list == [] then ts
    else
      var prev := TickList(ts, list[..|list| - 1]);
      var k := list[|list| - 1];
      if prev[k].remaining > 0 then prev[k := prev[k].(remaining := prev[k].remaining - 1)] else prev
  }

  /** Ticking the first m runners. */
  function TickRunners(ts: seq<Task>, rs: seq<Runner>, m: nat): (r: seq<Task>)
    requires SlotsValid(ts, rs) && m <= |rs|
    ensures |r| == |ts|
  {
    if m == 0 then ts else TickList(TickRunners(ts, rs, m - 1), rs[m - 1].tasks)
  }

  /** One iteration of run's `while True` loop at time `now`. */
  function Step(w: World, now: int): (r: World)
    requires WellFormed(w)
    ensures WellFormed(r) && |r.tasks| == |w.tasks| && |r.runners| == |w.runners|
  {
    var a := AdmitUpTo(w, |w.tasks|, now);
    var ts := TickRunners(a.tasks, a.runners, |a.runners|);
    TickRunnersFrame(a.tasks, a.runners, |a.runners|);
    assert forall i :: 0 <= i < |ts| ==> ts[i].needs == a.tasks[i].needs;
    World(ts, a.runners)
  }

  /** The world after n iterations. */
  function Iterate(w: World, n: nat): (r: World)
    requires WellFormed(w)
    ensures WellFormed(r) && |r.tasks| == |w.tasks| && |r.runners| == |w.runners|
  {
    if n == 0 then w else Step(Iterate(w, n - 1), n - 1)
  }

  predicate Done(w: World) {
    forall i :: 0 <= i < |w.tasks| ==> w.tasks[i].remaining <= 0
  }

  function ResetWorld(w: World): (r: World)
    ensures |r.tasks| == |w.tasks| && |r.runners| == |w.runners|
  {
    World(seq(|w.tasks|, i requires 0 <= i < |w.tasks| => w.tasks[i].Reset()),
          seq(|w.runners|, j requires 0 <= j < |w.runners| => w.runners[j].Reset()))
  }

  /** A task no runner can take on an idle world (run's static check). */
  predicate Unrunnable(w: World, i: nat)
    requires SlotsValid(w.tasks, w.runners) && i < |w.tasks|
  {
    forall q :: 0 <= q < |w.runners| ==> !CanExecute(w.tasks, w.runners[q], w.tasks[i])
  }

  // ---------------------------------------------------------------------
  // Facts about the tick

  /** Ticking changes only `remaining`, never raises it, and never takes a
      positive count below zero. */
  predicate TickedFrom(before: seq<Task>, after: seq<Task>) {
    |after| == |before| &&
    forall i :: 0 <= i < |before| ==>
      after[i] == before[i].(remaining := after[i].remaining) &&
      after[i].remaining <= before[i].remaining &&
      (before[i].remaining >= 0 ==> after[i].remaining >= 0) &&
      (before[i].remaining <= 0 ==> after[i].remaining == before[i].remaining)
  }

  lemma {:induction false} TickListFrame(ts: seq<Task>, list: seq<nat>)
    requires SlotsIn(list, |ts|)
    ensures TickedFrom(ts, TickList(ts, list))
  {
    if list != [] {
      TickListFrame(ts, list[..|list| - 1]);
    }
  }

  lemma {:induction false} TickRunnersFrame(ts: seq<Task>, rs: seq<Runner>, m: nat)
    requires SlotsValid(ts, rs) && m <= |rs|
    ensures TickedFrom(ts, TickRunners(ts, rs, m))
  {
    if m > 0 {
      TickRunnersFrame(ts, rs, m - 1);
      var prev := TickRunners(ts, rs, m - 1);
      TickListFrame(prev, rs[m - 1].tasks);
    }
  }

  // ---------------------------------------------------------------------
  // SimulatedResources.run as a function of the world and a tick budget

  datatype Outcome = NoRunner(tags: seq<string>) | Finished(ticks: nat) | OutOfFuel

  /** The first task at or after j that no runner can take. */
  function FirstUnrunnable(w: World, j: nat): (r: Option<nat>)
    requires SlotsValid(w.tasks, w.runners) && j <= |w.tasks|
    ensures r.Some? ==> j <= r.value < |w.tasks| && Unrunnable(w, r.value)
    ensures r.Some? ==> forall i :: j <= i < r.value ==> !Unrunnable(w, i)
    ensures r.None? ==> forall i :: j <= i < |w.tasks| ==> !Unrunnable(w, i)
    decreases |w.tasks| - j
  {
    if j == |w.tasks| then None
    else if Unrunnable(w, j) then Some(j)
    else FirstUnrunnable(w, j + 1)
  }

  /** The tick loop from iteration t on, with at most `fuel` iterations in all. */
  function Loop(w0: World, t: nat, fuel: nat): (World, Outcome)
    requires WellFormed(w0) && t <= fuel
    decreases fuel - t
  {
    if t == fuel then (Iterate(w0, fuel), OutOfFuel)
    else if Done(Iterate(w0, t + 1)) then (Iterate(w0, t + 1), Finished(t + 1))
    else Loop(w0, t + 1, fuel)
  }

  /** run(): reset, the static runner check, then the tick loop. */
  function Simulate(w: World, fuel: nat): (World, Outcome)
    requires WellFormed(w)
  {
    var w0 := ResetWorld(w);
    assert WellFormed(w0);
    match FirstUnrunnable(w0, 0)
    case Some(i) => (w0, NoRunner(w0.tasks[i].tags))
    case None => Loop(w0, 0, fuel)
  }

  /** The loop ends either finished, at the first tick within the budget
      whose world is done, or out of fuel, with the world of the last tick. */
  lemma {:induction false} LoopFinished(w0: World, t: nat, fuel: nat)
    requires WellFormed(w0) && t <= fuel
    ensures Loop(w0, t, fuel).1.Finished? || Loop(w0, t, fuel).1.OutOfFuel?
    ensures Loop(w0, t, fuel).1.Finished? ==>
      var n := Loop(w0, t, fuel).1.ticks;
      t < n <= fuel && Loop(w0, t, fuel).0 == Iterate(w0, n) && Done(Iterate(w0, n))
    ensures Loop(w0, t, fuel).1.OutOfFuel? ==> Loop(w0, t, fuel).0 == Iterate(w0, fuel)
    decreases fuel - t
  {
    if t == fuel {
    } else if Done(Iterate(w0, t + 1)) {
      assert Loop(w0, t, fuel) == (Iterate(w0, t + 1), Finished(t + 1));
    } else {
      assert Loop(w0, t, fuel) == Loop(w0, t + 1, fuel);
      LoopFinished(w0, t + 1, fuel);
    }
  }

  /** What run() returns: NoRunner with the tags of the first task no runner
      can take, before any tick; otherwise the number of the first tick after
      which no task has work remaining, or OutOfFuel when that takes more than
      `fuel` ticks. */
  lemma SimulateMeaning(w: World, fuel: nat)
    requires WellFormed(w)
    ensures var w0 := ResetWorld(w);
      WellFormed(w0) &&
      match Simulate(w, fuel).1
      case NoRunner(tags) =>
        exists i :: 0 <= i < |w0.tasks| && Unrunnable(w0, i) && tags == w.tasks[i].tags &&
          forall j :: 0 <= j < i ==> !Unrunnable(w0, j)
      case Finished(n) =>
        (forall i :: 0 <= i < |w0.tasks| ==> !Unrunnable(w0, i)) &&
        1 <= n <= fuel && Simulate(w, fuel).0 == Iterate(w0, n) && Done(Iterate(w0, n)) &&
        forall k :: 1 <= k < n ==> !Done(Iterate(w0, k))
      case OutOfFuel =>
        (forall i :: 0 <= i < |w0.tasks| ==> !Unrunnable(w0, i)) &&
        Simulate(w, fuel).0 == Iterate(w0, fuel) &&
        forall k :: 1 <= k <= fuel ==> !Done(Iterate(w0, k))
  {
    var w0 := ResetWorld(w);
    assert WellFormed(w0);
    if FirstUnrunnable(w0, 0).None? {
      LoopFinished(w0, 0, fuel);
      var r := Loop(w0, 0, fuel).1;
      forall k | 1 <= k <= fuel && (r.Finished? ==> k < r.ticks)
        ensures !Done(Iterate(w0, k))
      {
        LoopReaches(w0, 0, fuel, k);
      }
    }
  }

  // ---------------------------------------------------------------------
  // run() can be repeated: it starts from reset state every time

  predicate SameShape(a: World, b: World) {
    |a.tasks| == |b.tasks| && |a.runners| == |b.runners| &&
    (forall i :: 0 <= i < |a.tasks| ==> a.tasks[i].Reset() == b.tasks[i].Reset()) &&
    (forall r :: 0 <= r < |a.runners| ==> a.runners[r].Reset() == b.runners[r].Reset())
  }

  lemma SameShapeReset(a: World, b: World)
    requires SameShape(a, b)
    ensures ResetWorld(a) == ResetWorld(b)
  {
    assert ResetWorld(a).tasks == ResetWorld(b).tasks;
    assert ResetWorld(a).runners == ResetWorld(b).runners;
  }

  lemma {:induction false} AdmitUpToShape(w: World, n: nat, now: int)
    requires WellFormed(w) && n <= |w.tasks|
    ensures SameShape(AdmitUpTo(w, n, now), w)
  {
    if n > 0 {
      AdmitUpToShape(w, n - 1, now);
      var p := AdmitUpTo(w, n - 1, now);
      AdmitOneShape(p, n - 1, now);
      SameShapeTrans(AdmitOne(p, n - 1, now), p, w);
    }
  }

  /** Admission changes only what a reset clears. */
  lemma AdmitOneShape(p: World, i: nat, now: int)
    requires WellFormed(p) && i < |p.tasks|
    ensures SameShape(AdmitOne(p, i, now), p)
  {
  }

  lemma SameShapeTrans(a: World, b: World, c: World)
    requires SameShape(a, b) && SameShape(b, c)
    ensures SameShape(a, c)
  {
  }

  lemma IterateShape(w: World, n: nat)
    requires WellFormed(w)
    ensures SameShape(Iterate(w, n), w)
  {
    if n > 0 {
      IterateShape(w, n - 1);
      var p := Iterate(w, n - 1);
      var a := AdmitUpTo(p, |p.tasks|, n - 1);
      AdmitUpToShape(p, |p.tasks|, n - 1);
      TickRunnersFrame(a.tasks, a.runners, |a.runners|);
    }
  }

  /** Two consecutive run() calls produce the same outcome and the same final
      tasks and runners. */
  lemma {:induction false} RunTwice(w: World, fuel: nat)
    requires WellFormed(w)
    ensures WellFormed(Simulate(w, fuel).0)
    ensures Simulate(Simulate(w, fuel).0, fuel) == Simulate(w, fuel)
  {
    var w0 := ResetWorld(w);
    assert WellFormed(w0);
    SimulateMeaning(w, fuel);
    var w1 := Simulate(w, fuel).0;
    assert ResetWorld(w0) == w0;
    if Simulate(w, fuel).1.NoRunner? {
      assert w1 == w0;
    } else if Simulate(w, fuel).1.Finished? {
      IterateShape(w0, Simulate(w, fuel).1.ticks);
      SameShapeReset(w1, w0);
    } else {
      IterateShape(w0, fuel);
      SameShapeReset(w1, w0);
    }
  }

  // ---------------------------------------------------------------------
  // Tick 0: `started == 0` doubles as "not started"

  predicate Listed(w: World, i: nat) {
    exists r :: 0 <= r < |w.runners| && i in w.runners[r].tasks
  }

  predicate NoneStarted(ts: seq<Task>) {
    forall i :: 0 <= i < |ts| ==> ts[i].started == 0
  }

  /** Admission only appends to runner lists and leaves `remaining` alone. */
  predicate AdmittedFrom(w: World, a: World) {
    |a.tasks| == |w.tasks| && |a.runners| == |w.runners| &&
    (forall i :: 0 <= i < |w.tasks| ==> a.tasks[i].remaining == w.tasks[i].remaining) &&
    (forall r :: 0 <= r < |w.runners| ==> a.runners[r] == w.runners[r].(tasks := a.runners[r].tasks)) &&
    (forall r, x :: 0 <= r < |w.runners| && x in w.runners[r].tasks ==> x in a.runners[r].tasks)
  }

  lemma {:induction false} AdmitUpToAppends(w: World, n: nat, now: int)
    requires WellFormed(w) && n <= |w.tasks|
    ensures AdmittedFrom(w, AdmitUpTo(w, n, now))
  {
    if n > 0 {
      AdmitUpToAppends(w, n - 1, now);
      var p := AdmitUpTo(w, n - 1, now);
      AdmitOneAppends(p, n - 1, now);
      AdmittedFromTrans(w, p, AdmitOne(p, n - 1, now));
    }
  }

  lemma AdmitOneAppends(p: World, i: nat, now: int)
    requires WellFormed(p) && i < |p.tasks|
    ensures AdmittedFrom(p, AdmitOne(p, i, now))
  {
  }

  lemma AdmittedFromTrans(a: World, b: World, c: World)
    requires AdmittedFrom(a, b) && AdmittedFrom(b, c)
    ensures AdmittedFrom(a, c)
  {
  }

  /** A runner that suits a task when nothing is active. */
  predicate Suits(rn: Runner, t: Task) {
    rn.concurrent > 0 && t.image == rn.images && TagsFit(t.tags, rn.tags)
  }

  predicate HasSuitor(w: World, i: nat)
    requires i < |w.tasks|
  {
    exists q :: 0 <= q < |w.runners| && Suits(w.runners[q], w.tasks[i])
  }

  lemma CanExecuteIdle(ts: seq<Task>, rn: Runner, t: Task)
    requires SlotsIn(rn.tasks, |ts|) && NoneStarted(ts)
    ensures CanExecute(ts, rn, t) == Suits(rn, t)
  {
    ActiveNoneStarted(ts, rn.tasks);
  }

  /** Runner lists only grow. */
  predicate ListsGrow(p: World, a: World) {
    |a.runners| == |p.runners| &&
    forall r :: 0 <= r < |p.runners| ==>
      a.runners[r].(tasks := p.runners[r].tasks) == p.runners[r] && p.runners[r].tasks <= a.runners[r].tasks
  }

  lemma ListedGrows(p: World, a: World, j: nat)
    requires ListsGrow(p, a) && Listed(p, j)
    ensures Listed(a, j)
  {
    var r :| 0 <= r < |p.runners| && j in p.runners[r].tasks;
    var k :| 0 <= k < |p.runners[r].tasks| && p.runners[r].tasks[k] == j;
    assert a.runners[r].tasks[k] == j;
  }

  lemma AdmitOneIdle(p: World, i: nat)
    requires WellFormed(p) && i < |p.tasks| && NoneStarted(p.tasks)
    requires HasSuitor(p, i)
    ensures AdmitOne(p, i, 0).tasks == p.tasks
    ensures Listed(AdmitOne(p, i, 0), i)
    ensures ListsGrow(p, AdmitOne(p, i, 0))
  {
    var t := p.tasks[i];
    ReadyAlways(p.tasks, i);
    var q :| 0 <= q < |p.runners| && Suits(p.runners[q], t);
    CanExecuteIdle(p.tasks, p.runners[q], t);
    var f := FirstFit(p.tasks, p.runners, t, 0);
    assert f.Some?;
    var a := AdmitOne(p, i, 0);
    assert a.tasks == p.tasks[i := t.(started := 0)];
    assert a.runners[f.value].tasks[|p.runners[f.value].tasks|] == i;
  }

  /** At tick 0 nothing counts as active, so every task is placed on the
      first runner that suits it, whatever that runner's capacity, and keeps
      `started == 0`. */
  lemma {:induction false} AdmitAtZero(w: World, n: nat)
    requires WellFormed(w) && n <= |w.tasks|
    requires NoneStarted(w.tasks)
    requires forall i :: 0 <= i < |w.tasks| ==> HasSuitor(w, i)
    ensures AdmitUpTo(w, n, 0).tasks == w.tasks
    ensures ListsGrow(w, AdmitUpTo(w, n, 0))
    ensures forall i :: 0 <= i < n ==> Listed(AdmitUpTo(w, n, 0), i)
  {
    if n > 0 {
      AdmitAtZero(w, n - 1);
      AdmitZeroStep(w, AdmitUpTo(w, n - 1, 0), n - 1);
    }
  }

  /** One step of AdmitAtZero: task k joins a runner's list. */
  lemma AdmitZeroStep(w: World, p: World, k: nat)
    requires WellFormed(w) && WellFormed(p) && k < |w.tasks|
    requires NoneStarted(w.tasks) && HasSuitor(w, k)
    requires p.tasks == w.tasks && ListsGrow(w, p)
    requires forall i :: 0 <= i < k ==> Listed(p, i)
    ensures AdmitOne(p, k, 0).tasks == w.tasks
    ensures ListsGrow(w, AdmitOne(p, k, 0))
    ensures forall i :: 0 <= i <= k ==> Listed(AdmitOne(p, k, 0), i)
  {
    var q :| 0 <= q < |w.runners| && Suits(w.runners[q], w.tasks[k]);
    assert Suits(p.runners[q], p.tasks[k]);
    AdmitOneIdle(p, k);
    var a := AdmitOne(p, k, 0);
    forall i | 0 <= i < k ensures Listed(a, i) {
      ListedGrows(p, a, i);
    }
  }

  /** The static check on the reset world is a check on Suits. */
  lemma UnrunnableIdle(w0: World, i: nat)
    requires SlotsValid(w0.tasks, w0.runners) && i < |w0.tasks| && NoneStarted(w0.tasks)
    ensures Unrunnable(w0, i) <==> forall q :: 0 <= q < |w0.runners| ==> !Suits(w0.runners[q], w0.tasks[i])
  {
    forall q | 0 <= q < |w0.runners| {
      CanExecuteIdle(w0.tasks, w0.runners[q], w0.tasks[i]);
    }
  }

  lemma {:induction false} TickListHits(ts: seq<Task>, list: seq<nat>, x: nat)
    requires SlotsIn(list, |ts|) && x in list && ts[x].remaining > 0
    ensures TickList(ts, list)[x].remaining <= ts[x].remaining - 1
  {
    var init := list[..|list| - 1];
    TickListFrame(ts, init);
    if x in init {
      TickListHits(ts, init, x);
    }
  }

  lemma {:induction false} TickRunnersHits(ts: seq<Task>, rs: seq<Runner>, m: nat, r: nat, x: nat)
    requires SlotsValid(ts, rs) && r < m <= |rs| && x in rs[r].tasks && ts[x].remaining > 0
    ensures TickRunners(ts, rs, m)[x].remaining <= ts[x].remaining - 1
  {
    var prev := TickRunners(ts, rs, m - 1);
    TickRunnersFrame(ts, rs, m - 1);
    TickListFrame(prev, rs[m - 1].tasks);
    if r < m - 1 {
      TickRunnersHits(ts, rs, m - 1, r, x);
    } else if prev[x].remaining > 0 {
      TickListHits(prev, rs[m - 1].tasks, x);
    }
  }

  /** One tick when every task is already listed: every task with work left
      loses at least one unit of it, and stays listed. */
  lemma StepProgress(p: World, now: int)
    requires WellFormed(p)
    requires forall i :: 0 <= i < |p.tasks| ==> Listed(AdmitUpTo(p, |p.tasks|, now), i)
    ensures forall i :: 0 <= i < |p.tasks| ==> Listed(Step(p, now), i)
    ensures forall i :: 0 <= i < |p.tasks| ==>
      var rem := Step(p, now).tasks[i].remaining;
      if p.tasks[i].remaining > 0 then rem <= p.tasks[i].remaining - 1 else rem == p.tasks[i].remaining
  {
    var a := AdmitUpTo(p, |p.tasks|, now);
    var ts := TickRunners(a.tasks, a.runners, |a.runners|);
    assert Step(p, now) == World(ts, a.runners);
    TickRunnersFrame(a.tasks, a.runners, |a.runners|);
    AdmitUpToAppends(p, |p.tasks|, now);
    forall i | 0 <= i < |p.tasks|
      ensures Listed(Step(p, now), i)
      ensures if p.tasks[i].remaining > 0 then ts[i].remaining <= p.tasks[i].remaining - 1 else ts[i].remaining == p.tasks[i].remaining
    {
      assert Listed(a, i);
      var r :| 0 <= r < |a.runners| && i in a.runners[r].tasks;
      if a.tasks[i].remaining > 0 {
        TickRunnersHits(a.tasks, a.runners, |a.runners|, r, i);
      }
    }
  }

  /** After n >= 1 ticks from an idle world every task sits on some runner's
      list, and its remaining work has dropped by at least n or reached zero. */
  lemma {:induction false} IterateProgress(w0: World, n: nat)
    requires WellFormed(w0) && NoneStarted(w0.tasks) && n >= 1
    requires forall i :: 0 <= i < |w0.tasks| ==> HasSuitor(w0, i)
    ensures forall i :: 0 <= i < |w0.tasks| ==> Listed(Iterate(w0, n), i)
    ensures forall i :: 0 <= i < |w0.tasks| ==>
      var rem := Iterate(w0, n).tasks[i].remaining;
      rem <= 0 || rem <= w0.tasks[i].remaining - n
  {
    var p := Iterate(w0, n - 1);
    if n == 1 {
      AdmitAtZero(w0, |w0.tasks|);
      StepProgress(w0, 0);
    } else {
      IterateProgress(w0, n - 1);
      AdmitUpToAppends(p, |p.tasks|, n - 1);
      var a := AdmitUpTo(p, |p.tasks|, n - 1);
      forall i | 0 <= i < |p.tasks| ensures Listed(a, i) {
        assert Listed(p, i);
        var r :| 0 <= r < |p.runners| && i in p.runners[r].tasks;
        assert i in a.runners[r].tasks;
      }
      StepProgress(p, n - 1);
    }
  }

  function MaxCost(ts: seq<Task>): (m: int)
    ensures forall i :: 0 <= i < |ts| ==> ts[i].cost <= m
    ensures m >= 1
  {
    if ts == [] then 1
    else
      var rest := MaxCost(ts[1..]);
      assert forall i :: 1 <= i < |ts| ==> ts[i].cost == ts[1..][i - 1].cost;
      if ts[0].cost > rest then ts[0].cost else rest
  }

  /** A loop that has a done world within its budget finishes, no later
      than that tick; so every tick it passes over has a world not done. */
  lemma {:induction false} LoopReaches(w0: World, t: nat, fuel: nat, m: nat)
    requires WellFormed(w0) && t < m <= fuel
    ensures Done(Iterate(w0, m)) ==> Loop(w0, t, fuel).1.Finished? && Loop(w0, t, fuel).1.ticks <= m
    decreases fuel - t
  {
    if !Done(Iterate(w0, t + 1)) && m > t + 1 {
      assert Loop(w0, t, fuel) == Loop(w0, t + 1, fuel);
      LoopReaches(w0, t + 1, fuel, m);
    }
  }

  /** Because of tick 0, every task is ticked from the first tick on, so the
      simulated makespan never exceeds the longest task's cost (or one tick),
      whatever the runners' capacity. */
  lemma MakespanBound(w: World, fuel: nat)
    requires WellFormed(w)
    requires forall i :: 0 <= i < |w.tasks| ==> !Unrunnable(ResetWorld(w), i)
    requires fuel >= MaxCost(w.tasks)
    ensures Simulate(w, fuel).1.Finished?
    ensures Simulate(w, fuel).1.ticks <= MaxCost(w.tasks)
  {
    var w0 := ResetWorld(w);
    assert WellFormed(w0);
    var m := MaxCost(w.tasks);
    forall i | 0 <= i < |w0.tasks|
      ensures HasSuitor(w0, i)
    {
      UnrunnableIdle(w0, i);
    }
    IterateProgress(w0, m);
    assert FirstUnrunnable(w0, 0).None?;
    LoopReaches(w0, 0, fuel, m);
  }

  // ---------------------------------------------------------------------
  // Delays recorded by run()

  lemma {:induction false} AdmitUpToDelays(w: World, n: nat, now: int)
    requires WellFormed(w) && n <= |w.tasks|
    ensures forall i :: 0 <= i < |w.tasks| ==>
      var d := AdmitUpTo(w, n, now).tasks[i].delays;
      d == w.tasks[i].delays || (i < n && d == w.tasks[i].delays + [RunnerDelay])
  {
    if n > 0 {
      AdmitUpToDelays(w, n - 1, now);
    }
  }

  predicate OnlyRunnerDelays(w: World, n: nat) {
    forall i :: 0 <= i < |w.tasks| ==>
      |w.tasks[i].delays| <= n && forall k :: 0 <= k < |w.tasks[i].delays| ==> w.tasks[i].delays[k] == RunnerDelay
  }

  /** Each tick adds at most one Delay("runner", 1) to a task, and run() records
      no other delay. */
  lemma {:induction false} IterateDelays(w0: World, n: nat)
    requires WellFormed(w0)
    requires forall i :: 0 <= i < |w0.tasks| ==> w0.tasks[i].delays == []
    ensures OnlyRunnerDelays(Iterate(w0, n), n)
  {
    if n > 0 {
      IterateDelays(w0, n - 1);
      var p := Iterate(w0, n - 1);
      var a := AdmitUpTo(p, |p.tasks|, n - 1);
      AdmitUpToDelays(p, |p.tasks|, n - 1);
      TickRunnersFrame(a.tasks, a.runners, |a.runners|);
    }
  }

  // ---------------------------------------------------------------------
  // load_tasks: building the task arena from the emulator's loader

  /** What load_tasks reads from the loader for one job: its name, its
      `needs` (job names), its `tags`, and whether get_docker_image found an
      image. */
  datatype LoaderJob = LoaderJob(name: string, needs: seq<string>, tags: seq<string>, hasImage: bool)

  predicate DistinctNames(jobs: seq<LoaderJob>) {
    forall a, b :: 0 <= a < b < |jobs| ==> jobs[a].name != jobs[b].name
  }

  /** The jobs whose names do not start with ".", in loader order. */
  function Visible(jobs: seq<LoaderJob>): seq<LoaderJob> {
    if jobs == [] then []
    else
      var init := Visible(jobs[..|jobs| - 1]);
      var last := jobs[|jobs| - 1];
      if Text.StartsWith(last.name, ".") then init else init + [last]
  }

  /** Visible keeps exactly the jobs whose names do not start with ".". */
  lemma {:induction false} VisibleMeaning(jobs: seq<LoaderJob>)
    ensures |Visible(jobs)| <= |jobs|
    ensures forall k :: 0 <= k < |Visible(jobs)| ==> Visible(jobs)[k] in jobs && !Text.StartsWith(Visible(jobs)[k].name, ".")
    ensures forall j :: 0 <= j < |jobs| && !Text.StartsWith(jobs[j].name, ".") ==> jobs[j] in Visible(jobs)
  {
    if jobs != [] {
      var init := jobs[..|jobs| - 1];
      VisibleMeaning(init);
      assert forall j :: 0 <= j < |jobs| - 1 ==> jobs[j] == init[j];
    }
  }

  lemma {:induction false} VisibleDistinct(jobs: seq<LoaderJob>)
    requires DistinctNames(jobs)
    ensures DistinctNames(Visible(jobs))
  {
    if jobs != [] {
      var init := jobs[..|jobs| - 1];
      VisibleDistinct(init);
      VisibleMeaning(init);
      var last := jobs[|jobs| - 1];
      forall k | 0 <= k < |Visible(init)| ensures Visible(init)[k].name != last.name {
        var j :| 0 <= j < |init| && init[j] == Visible(init)[k];
        assert jobs[j] == init[j];
      }
    }
  }

  /** The `tasks` dict of load_tasks after the first k visible jobs: each
      name maps to the arena index of its task. */
  function Placed(vs: seq<LoaderJob>, base: nat): (m: map<string, nat>)
    ensures forall n :: n in m ==> base <= m[n] < base + |vs|
  {
    if vs == [] then map[]
    else Placed(vs[..|vs| - 1], base)[vs[|vs| - 1].name := base + |vs| - 1]
  }

  /** The needs loop: the indices of the needs already placed, in order;
      other needs are skipped. */
  function NeedTasks(needs: seq<string>, placed: map<string, nat>): seq<nat> {
    if needs == [] then []
    else
      var init := NeedTasks(needs[..|needs| - 1], placed);
      var n := needs[|needs| - 1];
      if n in placed then init + [placed[n]] else init
  }

  lemma {:induction false} NeedTasksMeaning(needs: seq<string>, placed: map<string, nat>)
    ensures forall x :: x in NeedTasks(needs, placed) ==> exists n :: n in needs && n in placed && placed[n] == x
    ensures forall n :: n in needs && n in placed ==> placed[n] in NeedTasks(needs, placed)
  {
    if needs != [] {
      var pre := needs[..|needs| - 1];
      var last := needs[|needs| - 1];
      NeedTasksMeaning(pre, placed);
      forall x | x in NeedTasks(needs, placed) ensures exists n :: n in needs && n in placed && placed[n] == x {
        if x in NeedTasks(pre, placed) {
          var n :| n in pre && n in placed && placed[n] == x;
          assert n in needs;
        } else {
          assert last in needs;
        }
      }
      forall n | n in needs && n in placed ensures placed[n] in NeedTasks(needs, placed) {
        if n != last {
          var j :| 0 <= j < |needs| && needs[j] == n;
          assert pre[j] == n;
        }
      }
    }
  }

  lemma {:induction false} PlacedMeaning(vs: seq<LoaderJob>, base: nat)
    requires DistinctNames(vs)
    ensures forall k :: 0 <= k < |vs| ==> vs[k].name in Placed(vs, base) && Placed(vs, base)[vs[k].name] == base + k
    ensures forall n :: n in Placed(vs, base) ==> exists k :: 0 <= k < |vs| && vs[k].name == n
  {
    if vs != [] {
      PlacedMeaning(vs[..|vs| - 1], base);
    }
  }

  /** The task add_task creates for a job, given the jobs placed so far. */
  function TaskFor(job: LoaderJob, placed: map<string, nat>, profile: CostProfile, pipeline: int): Task {
    var cost := profile.GetCost(job.name);
    Task(job.name, job.hasImage, cost, cost, NeedTasks(job.needs, placed), job.tags, pipeline, 0, [])
  }

  /** The tasks load_tasks appends for the visible jobs vs. */
  function LoadedTasks(vs: seq<LoaderJob>, base: nat, profile: CostProfile, pipeline: int): (r: seq<Task>)
    ensures |r| == |vs|
  {
    if vs == [] then []
    else
      var init := vs[..|vs| - 1];
      LoadedTasks(init, base, profile, pipeline) + [TaskFor(vs[|vs| - 1], Placed(init, base), profile, pipeline)]
  }

  lemma {:induction false} LoadedTasksAt(vs: seq<LoaderJob>, base: nat, profile: CostProfile, pipeline: int, k: nat)
    requires k < |vs|
    ensures LoadedTasks(vs, base, profile, pipeline)[k] == TaskFor(vs[k], Placed(vs[..k], base), profile, pipeline)
  {
    if k < |vs| - 1 {
      var init := vs[..|vs| - 1];
      LoadedTasksAt(init, base, profile, pipeline, k);
      assert init[..k] == vs[..k];
    }
  }

  lemma PlacedIndex(pre: seq<LoaderJob>, base: nat, n: string) returns (j: nat)
    requires DistinctNames(pre) && n in Placed(pre, base)
    ensures j < |pre| && pre[j].name == n && Placed(pre, base)[n] == base + j
  {
    PlacedMeaning(pre, base);
    j :| 0 <= j < |pre| && pre[j].name == n;
  }

  lemma {:induction false} PlacedNeeds(pre: seq<LoaderJob>, needs: seq<string>, base: nat)
    requires DistinctNames(pre)
    ensures forall x :: x in NeedTasks(needs, Placed(pre, base)) ==>
      base <= x < base + |pre| && pre[x - base].name in needs
    ensures forall j :: 0 <= j < |pre| && pre[j].name in needs ==> base + j in NeedTasks(needs, Placed(pre, base))
  {
    if needs != [] {
      var placed := Placed(pre, base);
      var init := needs[..|needs| - 1];
      var n := needs[|needs| - 1];
      PlacedNeeds(pre, init, base);
      assert needs == init + [n];
      if n in placed {
        var j := PlacedIndex(pre, base, n);
      }
      forall j | 0 <= j < |pre| && pre[j].name in needs ensures base + j in NeedTasks(needs, placed) {
        if pre[j].name == n {
          PlacedMeaning(pre, base);
        } else {
          assert pre[j].name in init;
        }
      }
    }
  }

  lemma NeedTasksBelow(needs: seq<string>, pre: seq<LoaderJob>, base: nat)
    ensures SlotsIn(NeedTasks(needs, Placed(pre, base)), base + |pre|)
  {
    var placed := Placed(pre, base);
    var r := NeedTasks(needs, placed);
    NeedTasksMeaning(needs, placed);
    forall q | 0 <= q < |r| ensures r[q] < base + |pre| {
      assert r[q] in r;
      var n :| n in needs && n in placed && placed[n] == r[q];
    }
  }

  /** The k-th task load_tasks appends is the k-th visible job with its
      profile cost (default 1), the given pipeline id, no progress and no
      delays, and it needs exactly the earlier-listed jobs among its `needs`:
      a need listed later in the loader, or absent, is dropped. */
  lemma LoadedTask(vs: seq<LoaderJob>, base: nat, profile: CostProfile, pipeline: int, k: nat)
    requires k < |vs| && DistinctNames(vs)
    ensures var t := LoadedTasks(vs, base, profile, pipeline)[k];
      t.name == vs[k].name && t.image == vs[k].hasImage && t.tags == vs[k].tags &&
      t.cost == t.remaining == (if vs[k].name in profile.jobs then profile.jobs[vs[k].name] else 1) &&
      t.pipeline == pipeline && t.started == 0 && t.delays == [] &&
      (forall x :: x in t.needs ==> base <= x < base + k && vs[x - base].name in vs[k].needs) &&
      (forall j :: 0 <= j < k && vs[j].name in vs[k].needs ==> base + j in t.needs)
  {
    LoadedTasksAt(vs, base, profile, pipeline, k);
    var pre := vs[..k];
    assert DistinctNames(pre);
    PlacedNeeds(pre, vs[k].needs, base);
    assert forall j :: 0 <= j < k ==> pre[j] == vs[j];
  }

  /** After k turns of the load_tasks loop over vs, started on the arena
      t0 at slot base: the arena is t0 followed by the first k jobs' tasks,
      and each of those jobs is placed at its task's slot. */
  ghost predicate LoadedUpTo(t0: seq<Task>, ts: seq<Task>, placed: map<string, nat>, vs: seq<LoaderJob>, k: nat,
                             base: nat, profile: CostProfile, pipeline: int)
  {
    k <= |vs| && ts == t0 + LoadedTasks(vs[..k], base, profile, pipeline) && placed == Placed(vs[..k], base)
  }

  /** One turn of the load_tasks loop: the next visible job is appended as
      its task, placed at the next slot. */
  lemma LoadStep(t0: seq<Task>, ts: seq<Task>, placed: map<string, nat>, vs: seq<LoaderJob>, k: nat,
                 base: nat, profile: CostProfile, pipeline: int)
    requires LoadedUpTo(t0, ts, placed, vs, k, base, profile, pipeline) && k < |vs|
    ensures LoadedUpTo(t0, ts + [TaskFor(vs[k], placed, profile, pipeline)], placed[vs[k].name := base + k],
                       vs, k + 1, base, profile, pipeline)
  {
    assert vs[..k + 1][..k] == vs[..k];
  }

  // ---------------------------------------------------------------------
  // Runner records of an environment file

  /** The settings of one runner record, each absent or given. */
  datatype RunnerSettings = RunnerSettings(images: Option<bool>, tags: Option<seq<string>>, runners: Option<int>)

  /** One item of the `runners` list: a mapping from the runner's name to its
      settings, its keys in file order. */
  type RunnerRecord = seq<(string, RunnerSettings)>

  /** The failure of `list(runner.keys())[0]` on a record with no key. */
  datatype LoadFault = IndexError

  /** The runner a record describes: named by its first key, runs images only
      when `images` says so, has the given tags or none, and one slot unless
      `runners` gives another number; it has no tasks yet. */
  function RunnerOf(record: RunnerRecord): (r: Option<Runner>)
    ensures r.None? <==> record == []
    ensures r.Some? ==> r.value.name == record[0].0 && r.value.tasks == [] && r.value.time == 0
    ensures r.Some? && record[0].1.images.None? ==> !r.value.images
    ensures r.Some? && record[0].1.tags.None? ==> r.value.tags == []
    ensures r.Some? && record[0].1.runners.None? ==> r.value.concurrent == 1
    ensures r.Some? ==> forall b :: record[0].1.images == Some(b) ==> r.value.images == b
    ensures r.Some? ==> forall ts :: record[0].1.tags == Some(ts) ==> r.value.tags == ts
    ensures r.Some? ==> forall n :: record[0].1.runners == Some(n) ==> r.value.concurrent == n
  {
    if record == [] then None
    else
      var settings := record[0].1;
      Some(Runner(record[0].0, settings.tags.GetOr([]), settings.images.GetOr(false),
                  settings.runners.GetOr(1), 0, []))
  }

  /** How many records, from the first, have a key: the load stops at the
      first one that has none. */
  function KeyedPrefix(records: seq<RunnerRecord>): (n: nat)
    ensures n <= |records|
    ensures forall k :: 0 <= k < n ==> records[k] != []
    ensures n < |records| ==> records[n] == []
  {
    if records == [] || records[0] == [] then 0 else 1 + KeyedPrefix(records[1..])
  }

  /** The runners of records that all have a key, in order. */
  function RunnersOf(records: seq<RunnerRecord>): (rs: seq<Runner>)
    requires forall k :: 0 <= k < |records| ==> records[k] != []
    ensures |rs| == |records|
    ensures forall k :: 0 <= k < |records| ==> Some(rs[k]) == RunnerOf(records[k])
  {
    if records == [] then [] else [RunnerOf(records[0]).value] + RunnersOf(records[1..])
  }

  /** Adding one more record adds its runner last. */
  lemma {:induction false} RunnersOfSnoc(records: seq<RunnerRecord>, record: RunnerRecord)
    requires forall k :: 0 <= k < |records| ==> records[k] != []
    requires record != []
    ensures RunnersOf(records + [record]) == RunnersOf(records) + [RunnerOf(record).value]
  {
    var rs := RunnersOf(records + [record]);
    assert |rs| == |RunnersOf(records) + [RunnerOf(record).value]|;
    forall k | 0 <= k < |rs|
      ensures rs[k] == (RunnersOf(records) + [RunnerOf(record).value])[k]
    {
      assert (records + [record])[k] == if k < |records| then records[k] else record;
    }
  }

  // ---------------------------------------------------------------------
  // The simulator object

  class SimulatedResources {
    var runners: seq<Runner>
    var tasks: seq<Task>
    var pipelines: seq<int>
    var profile: CostProfile

    ghost predicate Valid()
      reads this
    {
      WellFormed(World(tasks, runners))
    }

    constructor ()
      ensures Valid()
      ensures runners == [] && tasks == [] && pipelines == [] && profile == CostProfile(map[])
    {
      runners := [];
      tasks := [];
      pipelines := [];
      profile := CostProfile(map[]);
    }

    method AddRunner(images: bool, name: string, tags: seq<string>, concurrent: int)
      requires Valid()
      modifies this
      ensures Valid()
      ensures runners == old(runners) + [Runner(name, tags, images, concurrent, 0, [])]
      ensures tasks == old(tasks) && pipelines == old(pipelines) && profile == old(profile)
    {
      runners := runners + [Runner(name, tags, images, concurrent, 0, [])];
    }

    /** The runner-record loop of load: the profile takes the timings, and
        each record adds its runner, in file order. A record with no key
        raises IndexError, the runners of the records before it having been
        added. */
    method LoadRunners(timings: map<string, int>, records: seq<RunnerRecord>) returns (r: Result<(), LoadFault>)
      requires Valid()
      modifies this
      ensures Valid()
      ensures r.Ok? <==> forall k :: 0 <= k < |records| ==> records[k] != []
      ensures runners == old(runners) + RunnersOf(records[..KeyedPrefix(records)])
      ensures profile == CostProfile(timings)
      ensures tasks == old(tasks) && pipelines == old(pipelines)
    {
      profile := CostProfile(timings);
      var k := 0;
      while k < |records|
        invariant k <= KeyedPrefix(records)
        invariant Valid() && tasks == old(tasks) && pipelines == old(pipelines)
        invariant profile == CostProfile(timings)
        invariant runners == old(runners) + RunnersOf(records[..k])
      {
        var runner := RunnerOf(records[k]);
        if runner.None? {
          return Err(IndexError);
        }
        assert records[..k + 1] == records[..k] + [records[k]];
        RunnersOfSnoc(records[..k], records[k]);
        AddRunner(runner.value.images, runner.value.name, runner.value.tags, runner.value.concurrent);
        k := k + 1;
      }
      assert records[..k] == records;
      r := Ok(());
    }

    /** add_task; the needed tasks must already be in the arena. */
    method AddTask(name: string, image: bool, cost: int, needs: seq<nat>, tags: seq<string>, pipeline: int)
      returns (added: nat)
      requires Valid()
      requires SlotsIn(needs, |tasks|)
      modifies this
      ensures Valid()
      ensures added == old(|tasks|)
      ensures tasks == old(tasks) + [Task(name, image, cost, cost, needs, tags, pipeline, 0, [])]
      ensures runners == old(runners) && pipelines == old(pipelines) && profile == old(profile)
    {
      added := |tasks|;
      tasks := tasks + [Task(name, image, cost, cost, needs, tags, pipeline, 0, [])];
    }

    /** One turn of the load_tasks loop: the job's task needs the placed
        jobs among its needs, and the job is placed at the new task's slot. */
    method LoadJob(job: LoaderJob, placed: map<string, nat>, ghost pre: seq<LoaderJob>, ghost base: nat, pipeline: int)
      returns (placed': map<string, nat>)
      requires Valid() && |tasks| == base + |pre| && placed == Placed(pre, base)
      modifies this
      ensures Valid()
      ensures tasks == old(tasks) + [TaskFor(job, placed, profile, pipeline)]
      ensures placed' == placed[job.name := base + |pre|]
      ensures runners == old(runners) && pipelines == old(pipelines) && profile == old(profile)
    {
      var needTasks := NeedTasksOf(job.needs, placed);
      NeedTasksBelow(job.needs, pre, base);
      var added := AddTask(job.name, job.hasImage, profile.GetCost(job.name), needTasks, job.tags, pipeline);
      placed' := placed[job.name := added];
    }

    /** load_tasks: one task per visible job, in loader order, all in
        pipeline 1 + |pipelines|. */
    method LoadTasks(jobs: seq<LoaderJob>)
      requires Valid() && DistinctNames(jobs)
      modifies this
      ensures Valid()
      ensures tasks == old(tasks) + LoadedTasks(Visible(jobs), old(|tasks|), profile, 1 + |pipelines|)
      ensures runners == old(runners) && pipelines == old(pipelines) && profile == old(profile)
    {
      var pipeline := 1 + |pipelines|;
      var visible := VisibleJobs(jobs);
      VisibleDistinct(jobs);
      ghost var t0, base := tasks, |tasks|;
      var placed: map<string, nat> := map[];
      var k := 0;
      while k < |visible|
        invariant Valid() && LoadedUpTo(t0, tasks, placed, visible, k, base, profile, pipeline)
        invariant runners == old(runners) && pipelines == old(pipelines) && profile == old(profile)
      {
        LoadStep(t0, tasks, placed, visible, k, base, profile, pipeline);
        placed := LoadJob(visible[k], placed, visible[..k], base, pipeline);
        k := k + 1;
      }
      assert visible[..k] == visible;
    }

    /** The resets at the top of run(). */
    method ResetAll()
      modifies this
      requires Valid()
      ensures Valid()
      ensures World(tasks, runners) == ResetWorld(old(World(tasks, runners)))
      ensures pipelines == old(pipelines) && profile == old(profile)
    {
      ghost var w := World(tasks, runners);
      var r := 0;
      while r < |runners|
        invariant r <= |runners| == |w.runners|
        invariant forall j :: 0 <= j < r ==> runners[j] == w.runners[j].Reset()
        invariant forall j :: r <= j < |runners| ==> runners[j] == w.runners[j]
        invariant tasks == w.tasks && pipelines == old(pipelines) && profile == old(profile)
      {
        runners := runners[r := runners[r].Reset()];
        r := r + 1;
      }
      var i := 0;
      while i < |tasks|
        invariant i <= |tasks| == |w.tasks|
        invariant forall j :: 0 <= j < i ==> tasks[j] == w.tasks[j].Reset()
        invariant forall j :: i <= j < |tasks| ==> tasks[j] == w.tasks[j]
        invariant |runners| == |w.runners| && forall j :: 0 <= j < |runners| ==> runners[j] == w.runners[j].Reset()
        invariant pipelines == old(pipelines) && profile == old(profile)
      {
        tasks := tasks[i := tasks[i].Reset()];
        i := i + 1;
      }
      assert tasks == ResetWorld(w).tasks;
      assert runners == ResetWorld(w).runners;
    }

    /** The static check: the first task no runner can execute, if any. */
    method FindUnrunnable() returns (bad: Option<nat>)
      requires Valid()
      ensures bad == FirstUnrunnable(World(tasks, runners), 0)
    {
      var i := 0;
      while i < |tasks|
        invariant i <= |tasks|
        invariant forall j :: 0 <= j < i ==> !Unrunnable(World(tasks, runners), j)
      {
        var capable := 0;
        var r := 0;
        while r < |runners|
          invariant r <= |runners|
          invariant capable == 0 <==> forall q :: 0 <= q < r ==> !CanExecute(tasks, runners[q], tasks[i])
        {
          if CanExecute(tasks, runners[r], tasks[i]) {
            capable := capable + 1;
          }
          r := r + 1;
        }
        if capable == 0 {
          FirstUnrunnableIs(World(tasks, runners), i);
          return Some(i);
        }
        i := i + 1;
      }
      FirstUnrunnableNone(World(tasks, runners), 0);
      return None;
    }

    /** SimulatedRunner.execute on runner q. */
    method Execute(q: nat, i: nat, now: int)
      requires Valid() && q < |runners| && i < |tasks|
      modifies this
      ensures Valid()
      ensures tasks == old(tasks)[i := old(tasks)[i].(started := now)]
      ensures runners == old(runners)[q := old(runners)[q].(tasks := old(runners)[q].tasks + [i])]
      ensures pipelines == old(pipelines) && profile == old(profile)
    {
      tasks := tasks[i := tasks[i].(started := now)];
      runners := runners[q := runners[q].(tasks := runners[q].tasks + [i])];
    }

    /** SimulatedTask.add_delay. */
    method AddDelay(i: nat, reason: string, cost: int)
      requires Valid() && i < |tasks|
      modifies this
      ensures Valid()
      ensures tasks == old(tasks)[i := old(tasks)[i].(delays := old(tasks)[i].delays + [Delay(reason, cost)])]
      ensures runners == old(runners) && pipelines == old(pipelines) && profile == old(profile)
    {
      tasks := tasks[i := tasks[i].(delays := tasks[i].delays + [Delay(reason, cost)])];
    }

    /** The admission loop of one tick. */
    method AdmitTasks(now: int)
      requires Valid()
      modifies this
      ensures Valid()
      ensures World(tasks, runners) == AdmitUpTo(old(World(tasks, runners)), |old(tasks)|, now)
      ensures pipelines == old(pipelines) && profile == old(profile)
    {
      ghost var w := World(tasks, runners);
      var i := 0;
      while i < |tasks|
        invariant Valid()
        invariant |tasks| == |w.tasks| && i <= |tasks|
        invariant World(tasks, runners) == AdmitUpTo(w, i, now)
        invariant pipelines == old(pipelines) && profile == old(profile)
      {
        var t := tasks[i];
        if t.started == 0 && Ready(tasks, i) {
          var q := 0;
          while q < |runners| && !CanExecute(tasks, runners[q], t)
            invariant q <= |runners|
            invariant forall p :: 0 <= p < q ==> !CanExecute(tasks, runners[p], t)
          {
            q := q + 1;
          }
          FirstFitIs(tasks, runners, t, q);
          if q < |runners| {
            Execute(q, i, now);
          } else {
            AddDelay(i, "runner", 1);
          }
        }
        i := i + 1;
      }
    }

    /** SimulatedRunner.tick on runner r. */
    method TickRunner(r: nat)
      requires Valid() && r < |runners|
      modifies this
      ensures runners == old(runners) && pipelines == old(pipelines) && profile == old(profile)
      ensures Valid()
      ensures tasks == TickList(old(tasks), runners[r].tasks)
    {
      ghost var ts := tasks;
      var list := runners[r].tasks;
      var k := 0;
      while k < |list|
        invariant k <= |list|
        invariant tasks == TickList(ts, list[..k])
        invariant runners == old(runners) && pipelines == old(pipelines) && profile == old(profile)
      {
        assert list[..k + 1][..k] == list[..k];
        var x := list[k];
        if tasks[x].remaining > 0 {
          tasks := tasks[x := tasks[x].(remaining := tasks[x].remaining - 1)];
        }
        k := k + 1;
      }
      assert list[..k] == list;
      TickListFrame(ts, list);
      assert forall j :: 0 <= j < |tasks| ==> tasks[j].needs == ts[j].needs;
    }

    /** The count of tasks with work remaining, from the end of a tick. */
    method PendingCount() returns (remaining: nat)
      ensures remaining <= |tasks|
      ensures remaining == 0 <==> Done(World(tasks, runners))
    {
      remaining := 0;
      var i := 0;
      while i < |tasks|
        invariant i <= |tasks| && remaining <= i
        invariant remaining == 0 <==> forall j :: 0 <= j < i ==> tasks[j].remaining <= 0
      {
        if tasks[i].remaining > 0 {
          remaining := remaining + 1;
        }
        i := i + 1;
      }
    }

    /** One pass of run's tick loop at time `now`: admission, then every
        runner's tick. */
    method TickOnce(now: int)
      requires Valid()
      modifies this
      ensures Valid()
      ensures World(tasks, runners) == Step(old(World(tasks, runners)), now)
      ensures pipelines == old(pipelines) && profile == old(profile)
    {
      AdmitTasks(now);
      ghost var admitted := World(tasks, runners);
      var r := 0;
      while r < |runners|
        invariant Valid() && r <= |runners|
        invariant runners == admitted.runners
        invariant tasks == TickRunners(admitted.tasks, admitted.runners, r)
        invariant pipelines == old(pipelines) && profile == old(profile)
      {
        TickRunner(r);
        r := r + 1;
      }
    }

    /** run(), with the `while True` loop cut off after `fuel` ticks. */
    method Run(fuel: nat) returns (outcome: Outcome)
      requires Valid()
      modifies this
      ensures Valid()
      ensures (World(tasks, runners), outcome) == Simulate(old(World(tasks, runners)), fuel)
      ensures pipelines == old(pipelines) && profile == old(profile)
    {
      ghost var w := World(tasks, runners);
      ResetAll();
      var bad := FindUnrunnable();
      if bad.Some? {
        return NoRunner(tasks[bad.value].tags);
      }
      ghost var w0 := World(tasks, runners);
      var ticks := 0;
      while ticks < fuel
        invariant Valid() && ticks <= fuel
        invariant World(tasks, runners) == Iterate(w0, ticks)
        invariant Loop(w0, ticks, fuel) == Simulate(w, fuel)
        invariant pipelines == old(pipelines) && profile == old(profile)
      {
        TickOnce(ticks);
        ticks := ticks + 1;
        var pending := PendingCount();
        if pending == 0 {
          return Finished(ticks);
        }
      }
      return OutOfFuel;
    }
  }

  /** The first loop of load_tasks: the jobs whose names do not start with ".". */
  method VisibleJobs(jobs: seq<LoaderJob>) returns (visible: seq<LoaderJob>)
    ensures visible == Visible(jobs)
  {
    visible := [];
    var j := 0;
    while j < |jobs|
      invariant j <= |jobs|
      invariant visible == Visible(jobs[..j])
    {
      assert jobs[..j + 1][..j] == jobs[..j];
      if !Text.StartsWith(jobs[j].name, ".") {
        visible := visible + [jobs[j]];
      }
      j := j + 1;
    }
    assert jobs[..j] == jobs;
  }

  /** The needs loop of load_tasks. */
  method NeedTasksOf(needs: seq<string>, placed: map<string, nat>) returns (needTasks: seq<nat>)
    ensures needTasks == NeedTasks(needs, placed)
  {
    needTasks := [];
    var q := 0;
    while q < |needs|
      invariant q <= |needs|
      invariant needTasks == NeedTasks(needs[..q], placed)
    {
      assert needs[..q + 1][..q] == needs[..q];
      if needs[q] in placed {
        needTasks := needTasks + [placed[needs[q]]];
      }
      q := q + 1;
    }
    assert needs[..q] == needs;
  }

  lemma FirstUnrunnableIs(w: World, i: nat)
    requires SlotsValid(w.tasks, w.runners) && i < |w.tasks| && Unrunnable(w, i)
    requires forall j :: 0 <= j < i ==> !Unrunnable(w, j)
    ensures FirstUnrunnable(w, 0) == Some(i)
  {
  }

  lemma FirstUnrunnableNone(w: World, j: nat)
    requires SlotsValid(w.tasks, w.runners) && j <= |w.tasks|
    requires forall i :: 0 <= i < |w.tasks| ==> !Unrunnable(w, i)
    ensures FirstUnrunnable(w, j) == None
  {
  }

  lemma FirstFitIs(ts: seq<Task>, rs: seq<Runner>, t: Task, q: nat)
    requires SlotsValid(ts, rs) && q <= |rs|
    requires forall p :: 0 <= p < q ==> !CanExecute(ts, rs[p], t)
    requires q < |rs| ==> CanExecute(ts, rs[q], t)
    ensures FirstFit(ts, rs, t, 0) == if q < |rs| then Some(q) else None
  {
  }
}
