/** Template generators of the event simulator: runner profiles grouped by
    tag set, a runner configuration with one generated runner per profile,
    and a per-job timing profile for a pipeline. */
module GitlabSimUtils {
  import opened Text
  import GitlabSim

  // ---------------------------------------------------------------------
  // RunnerTagCombo

  /** A runner profile: the set of tags of one runner. Two combos are equal
      exactly when their tag sets are, which is datatype equality here. */
  datatype Combo = Combo(tags: set<string>)

  /** RunnerTagCombo(tags) built from a list of tags. */
  function ComboOf(tags: seq<string>): (c: Combo)
    ensures forall t :: t in c.tags <==> t in tags
  {
    Combo(set t | t in tags)
  }

  /** The sum of `h(tag)` over a set of tags, taken in an arbitrary order;
      `h` stands for Python's string hash. */
  ghost function TagHash(tags: set<string>, h: string -> int): int
    decreases tags
  {
    if tags == {} then 0
    else
      var t :| t in tags;
      h(t) + TagHash(tags - {t}, h)
  }

  /** RunnerTagCombo.__hash__. */
  ghost function Hash(c: Combo, h: string -> int): int {
    TagHash(c.tags, h)
  }

  /** The sum does not depend on the order the set is walked in: any tag
      can be taken out first. */
  lemma {:induction false} TagHashRemove(tags: set<string>, h: string -> int, x: string)
    requires x in tags
    ensures TagHash(tags, h) == h(x) + TagHash(tags - {x}, h)
    decreases tags
  {
    var t :| t in tags && TagHash(tags, h) == h(t) + TagHash(tags - {t}, h);
    if t != x {
      TagHashRemove(tags - {t}, h, x);
      TagHashRemove(tags - {x}, h, t);
      assert tags - {t} - {x} == tags - {x} - {t};
    }
  }

  /** The hash of a union of disjoint tag sets is the sum of their hashes,
      so combos that are equal hash equally however their tags were listed. */
  lemma {:induction false} TagHashUnion(a: set<string>, b: set<string>, h: string -> int)
    requires a * b == {}
    ensures TagHash(a + b, h) == TagHash(a, h) + TagHash(b, h)
    decreases a
  {
    if a != {} {
      var x :| x in a;
      TagHashRemove(a + b, h, x);
      TagHashRemove(a, h, x);
      assert (a + b) - {x} == (a - {x}) + b;
      TagHashUnion(a - {x}, b, h);
    } else {
      assert a + b == b;
    }
  }

  /** Tag lists with the same members give equal combos with equal hashes. */
  lemma HashAgrees(x: seq<string>, y: seq<string>, h: string -> int)
    requires forall t :: t in x <==> t in y
    ensures ComboOf(x) == ComboOf(y) && Hash(ComboOf(x), h) == Hash(ComboOf(y), h)
  {
    assert ComboOf(x).tags == ComboOf(y).tags;
  }

  // ---------------------------------------------------------------------
  // unique_runner_profiles

  /** One combo per distinct tag set among the runners' tag lists. */
  method UniqueProfiles(runners: seq<seq<string>>) returns (unique: set<Combo>)
    ensures forall i :: 0 <= i < |runners| ==> ComboOf(runners[i]) in unique
    ensures forall c :: c in unique ==> exists i :: 0 <= i < |runners| && c == ComboOf(runners[i])
    ensures |unique| <= |runners|
  {
    unique := {};
    var n := 0;
    while n < |runners|
      invariant n <= |runners|
      invariant forall i :: 0 <= i < n ==> ComboOf(runners[i]) in unique
      invariant forall c :: c in unique ==> exists i :: 0 <= i < n && c == ComboOf(runners[i])
      invariant |unique| <= n
    {
      unique := unique + {ComboOf(runners[n])};
      n := n + 1;
    }
  }

  // ---------------------------------------------------------------------
  // runners_template

  /** One entry of the generated runner configuration. The tags list is built
      by walking a set, so only its members are fixed: it is kept as a set. */
  datatype RunnerEntry = RunnerEntry(name: string, image: bool, runUntagged: bool,
                                     tags: set<string>, concurrent: int)

  function GeneratedName(count: nat): string {
    "generated-" + NatToString(count)
  }

  /** Different counters give different runner names. */
  lemma GeneratedNamesDistinct(i: nat, j: nat)
    requires i != j
    ensures GeneratedName(i) != GeneratedName(j)
  {
    if GeneratedName(i) == GeneratedName(j) {
      var p := "generated-";
      assert GeneratedName(i)[|p|..] == NatToString(i);
      assert GeneratedName(j)[|p|..] == NatToString(j);
      ParseNatToString(i);
      ParseNatToString(j);
    }
  }

  /** The entry written for profile c as the count-th runner: `~`-prefixed tags
      are markers, `~image` and `~untagged` turning on the two flags. */
  function Entry(c: Combo, count: nat): (e: RunnerEntry)
    ensures e.image <==> "~image" in c.tags
    ensures e.runUntagged <==> "~untagged" in c.tags
    ensures forall t :: t in e.tags <==> t in c.tags && !StartsWith(t, "~")
  {
    RunnerEntry(GeneratedName(count), "~image" in c.tags, "~untagged" in c.tags,
                set t | t in c.tags && !StartsWith(t, "~"), 1)
  }

  /** The marker tags are exactly what the entry's tags leave out. */
  lemma EntryTagsSplit(c: Combo, count: nat)
    ensures Entry(c, count).tags + (set t | t in c.tags && StartsWith(t, "~")) == c.tags
    ensures "~image" !in Entry(c, count).tags && "~untagged" !in Entry(c, count).tags
  {
    assert StartsWith("~image", "~");
    assert StartsWith("~untagged", "~");
  }

  /** runners_template: the distinct profiles walked in some order (returned
      as `order`), one entry each, numbered from generated-0. */
  method RunnersTemplate(runners: seq<seq<string>>) returns (order: seq<Combo>, entries: seq<RunnerEntry>)
    ensures forall i :: 0 <= i < |runners| ==> ComboOf(runners[i]) in order
    ensures forall k :: 0 <= k < |order| ==> exists i :: 0 <= i < |runners| && order[k] == ComboOf(runners[i])
    ensures forall k, m :: 0 <= k < m < |order| ==> order[k] != order[m]
    ensures |entries| == |order| <= |runners|
    ensures forall k :: 0 <= k < |entries| ==> entries[k] == Entry(order[k], k)
    ensures forall k :: 0 <= k < |entries| ==>
              entries[k].name == GeneratedName(k) && entries[k].concurrent == 1
    ensures forall k, m :: 0 <= k < m < |entries| ==> entries[k].name != entries[m].name
  {
    var unique := UniqueProfiles(runners);
    var todo := unique;
    var count := 0;
    order := [];
    entries := [];
    while todo != {}
      invariant todo <= unique && count == |entries| == |order| && count + |todo| == |unique|
      invariant forall c :: c in order <==> c in unique - todo
      invariant forall k, m :: 0 <= k < m < |order| ==> order[k] != order[m]
      invariant forall k :: 0 <= k < count ==> entries[k] == Entry(order[k], k)
      decreases |todo|
    {
      var combo :| combo in todo;
      assert combo !in order;
      order := order + [combo];
      entries := entries + [Entry(combo, count)];
      todo := todo - {combo};
      count := count + 1;
    }
    forall k, m | 0 <= k < m < |entries|
      ensures entries[k].name != entries[m].name
    {
      GeneratedNamesDistinct(k, m);
    }
    forall k | 0 <= k < |order|
      ensures exists i :: 0 <= i < |runners| && order[k] == ComboOf(runners[i])
    {
      assert order[k] in order;
    }
  }

  // ---------------------------------------------------------------------
  // profile_template

  const DEFAULT_TIME: int := 5

  datatype ProfileEntry = ProfileEntry(name: string, time: int)

  /** profile_template: one `{name, time}` entry per pipeline job, in order,
      every time being the default. */
  method ProfileTemplate(pipeline: GitlabSim.Pipeline, defaultTime: int) returns (jobs: seq<ProfileEntry>)
    ensures |jobs| == |pipeline.jobs|
    ensures forall k :: 0 <= k < |jobs| ==> jobs[k].name == pipeline.jobs[k].name
    ensures forall k :: 0 <= k < |jobs| ==> jobs[k].time == defaultTime
  {
    jobs := [];
    for n := 0 to |pipeline.jobs|
      invariant |jobs| == n
      invariant forall k :: 0 <= k < n ==> jobs[k] == ProfileEntry(pipeline.jobs[k].name, defaultTime)
    {
      jobs := jobs + [ProfileEntry(pipeline.jobs[n].name, defaultTime)];
    }
  }
}
