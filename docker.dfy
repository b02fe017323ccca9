/** The parts of the docker job runner that are plain data handling: which
    service containers a job asks for, the `-e` arguments for the job's
    environment, the mode suffix of bind volumes, and the tool's two
    setters. Talking to the docker daemon is not part of the model. */
module Docker {
  import opened Wrappers
  import opened Yaml
  import Text

  /** How `get_services` can fail: a Python exception on a value of the
      wrong shape, or its `assert "name" in service`. */
  datatype Fault = Raised(error: PyError) | AssertionFailed

  // ---------------------------------------------------------------------
  // get_services

  /** A service definition as the job runner wants it: a mapping with a
      `name`. */
  predicate IsServiceDef(v: Value) {
    v.Map? && "name" in Keys(v.entries)
  }

  /** The definition one entry of `services` gives: a string becomes a
      mapping holding it as `name`; a mapping must have a `name` and is
      kept as it is; any other entry gives nothing. */
  function ServiceItem(service: Value): (r: Result<Option<Value>, Fault>)
    ensures r.Err? <==> service.Map? && "name" !in Keys(service.entries)
    ensures r.Err? ==> r.error == AssertionFailed
    ensures r.Ok? && r.value.Some? ==> IsServiceDef(r.value.value)
    ensures r.Ok? ==> (r.value.Some? <==> service.Str? || service.Map?)
  {
    match service
    case Str(s) => Ok(Some(Map([("name", service)])))
    case Map(entries) => if "name" in Keys(entries) then Ok(Some(service)) else Err(AssertionFailed)
    case _ => Ok(None)
  }

  /** The number of entries that give a definition. */
  function CountDefs(services: seq<Value>): nat {
    if services == [] then 0
    else (if services[0].Str? || services[0].Map? then 1 else 0) + CountDefs(services[1..])
  }

  /** The loop of `get_services` over the combined list, as a value: every
      kept definition, in the order of the entries; the first mapping
      without a `name` fails the assertion. */
  function ServiceDefs(services: seq<Value>): (r: Result<seq<Value>, Fault>)
    ensures r.Err? <==> exists i :: 0 <= i < |services| && services[i].Map? && "name" !in Keys(services[i].entries)
    ensures r.Err? ==> r.error == AssertionFailed
    ensures r.Ok? ==> |r.value| == CountDefs(services) && forall d :: d in r.value ==> IsServiceDef(d)
  {
    if services == [] then Ok([])
    else
      var item := ServiceItem(services[0]);
      var rest := ServiceDefs(services[1..]);
      assert forall i :: 0 < i < |services| ==> services[i] == services[1..][i - 1];
      if item.Err? then Err(AssertionFailed)
      else if rest.Err? then Err(AssertionFailed)
      else Ok((if item.value.Some? then [item.value.value] else []) + rest.value)
  }

  /** The definitions of two lists one after the other are the definitions
      of the first followed by those of the second. */
  lemma {:induction false} ServiceDefsAppend(a: seq<Value>, b: seq<Value>)
    ensures ServiceDefs(a + b).Ok? <==> ServiceDefs(a).Ok? && ServiceDefs(b).Ok?
    ensures ServiceDefs(a + b).Ok? ==> ServiceDefs(a + b).value == ServiceDefs(a).value + ServiceDefs(b).value
  {
    if a == [] {
      assert a + b == b;
    } else {
      assert (a + b)[0] == a[0];
      assert (a + b)[1..] == a[1..] + b;
      ServiceDefsAppend(a[1..], b);
    }
  }

  /** One more entry adds its definition, if any, at the end. */
  lemma ServiceDefsSnoc(s: seq<Value>, x: Value)
    requires ServiceDefs(s).Ok? && ServiceItem(x).Ok?
    ensures var item := ServiceItem(x).value;
            ServiceDefs(s + [x]) == Ok(ServiceDefs(s).value + (if item.Some? then [item.value] else []))
  {
    var item := ServiceItem(x).value;
    var tail := if item.Some? then [item.value] else [];
    assert ServiceDefs([x]) == Ok(tail) by {
      assert [x][0] == x && [x][1..] == [];
      assert tail + [] == tail;
    }
    ServiceDefsAppend(s, [x]);
  }

  /** A list of service names becomes one `{name: ...}` mapping per name, in
      order. */
  lemma {:induction false} NamesBecomeDefs(names: seq<string>)
    ensures var services := seq(|names|, i requires 0 <= i < |names| => Str(names[i]));
            ServiceDefs(services) == Ok(seq(|names|, i requires 0 <= i < |names| => Map([("name", Str(names[i]))])))
  {
    var services := seq(|names|, i requires 0 <= i < |names| => Str(names[i]));
    var defs := seq(|names|, i requires 0 <= i < |names| => Map([("name", Str(names[i]))]));
    if names != [] {
      NamesBecomeDefs(names[1..]);
      assert services[1..] == seq(|names| - 1, i requires 0 <= i < |names| - 1 => Str(names[1..][i]));
      assert defs[1..] == seq(|names| - 1, i requires 0 <= i < |names| - 1 => Map([("name", Str(names[1..][i]))]));
      assert services[0] == Str(names[0]);
      assert ServiceItem(services[0]) == Ok(Some(defs[0]));
      assert ServiceDefs(services) == Ok([defs[0]] + defs[1..]);
      assert defs == [defs[0]] + defs[1..];
    }
  }

  /** `a + b` on two loaded values, as far as iterating the sum goes: two
      lists or two strings join; anything else cannot be iterated
      afterwards (TypeError either way). */
  function ConcatItems(a: Value, b: Value): (r: Result<seq<Value>, PyError>)
    ensures a.List? && b.List? ==> r == Ok(a.items + b.items)
    ensures r.Ok? <==> (a.List? && b.List?) || (a.Str? && b.Str?)
  {
    if a.List? && b.List? then Ok(a.items + b.items)
    else if a.Str? && b.Str? then Iterate(Str(a.s + b.s))
    else Err(TypeError)
  }

  /** The list `get_services` walks: the top-level `services` then the
      job's own, when an `image` is set at the top level or in the job, and
      nothing otherwise. A missing job is None, so asking it for `image`
      raises TypeError and asking it for `services` AttributeError. */
  function ServiceList(config: Dict, jobname: string): (r: Result<seq<Value>, Fault>)
    ensures var job := GetOr(config, jobname, Null);
            "image" !in Keys(config) && job.Map? && "image" !in Keys(job.entries) ==> r == Ok([])
    ensures var job := GetOr(config, jobname, Null);
            "image" !in Keys(config) && jobname !in Keys(config) ==> r == Err(Raised(TypeError))
    ensures var job := GetOr(config, jobname, Null);
            var all := GetOr(config, "services", List([]));
            ("image" in Keys(config) || (job.Map? && "image" in Keys(job.entries))) && job.Map? ==>
              var mine := GetOr(job.entries, "services", List([]));
              (all.List? && mine.List? ==> r == Ok(all.items + mine.items)) &&
              (r.Ok? ==> (all.List? && mine.List?) || (all.Str? && mine.Str?))
  {
    var job := GetOr(config, jobname, Null);
    var used :- if "image" in Keys(config) then Ok(true)
                else match In(Str("image"), job)
                     case Ok(b) => Ok(b)
                     case Err(e) => Err(Raised(e));
    if !used then Ok([])
    else if !job.Map? then Err(Raised(AttributeError))
    else
      var all := GetOr(config, "services", List([]));
      var mine := GetOr(job.entries, "services", List([]));
      match ConcatItems(all, mine)
      case Ok(items) => Ok(items)
      case Err(e) => Err(Raised(e))
  }

  /** get_services: the service containers to start for a job. */
  method GetServices(config: Dict, jobname: string) returns (r: Result<seq<Value>, Fault>)
    ensures ServiceList(config, jobname).Err? ==> r == Err(ServiceList(config, jobname).error)
    ensures ServiceList(config, jobname).Ok? ==> r == ServiceDefs(ServiceList(config, jobname).value)
  {
    var listed := ServiceList(config, jobname);
    if listed.Err? {
      return Err(listed.error);
    }
    r := CollectDefs(listed.value);
  }

  /** The loop of `get_services`: one definition per usable entry, in
      order. */
  method CollectDefs(services: seq<Value>) returns (r: Result<seq<Value>, Fault>)
    ensures r == ServiceDefs(services)
  {
    var defs: seq<Value> := [];
    for i := 0 to |services|
      invariant ServiceDefs(services[..i]) == Ok(defs)
    {
      var item := ServiceItem(services[i]);
      if item.Err? {
        return Err(AssertionFailed);
      }
      ServiceDefsSnoc(services[..i], services[i]);
      assert services[..i + 1] == services[..i] + [services[i]];
      var tail := if item.value.Some? then [item.value.value] else [];
      assert ServiceDefs(services[..i + 1]) == Ok(defs + tail);
      defs := defs + tail;
    }
    assert services[..|services|] == services;
    r := Ok(defs);
  }

  /** With an image, the services are the top-level ones followed by the
      job's own, each turned into its definition. */
  lemma GlobalThenJob(config: Dict, jobname: string)
    requires "image" in Keys(config)
    requires GetOr(config, jobname, Null).Map?
    requires GetOr(config, "services", List([])).List?
    requires GetOr(GetOr(config, jobname, Null).entries, "services", List([])).List?
    ensures var all := GetOr(config, "services", List([])).items;
            var mine := GetOr(GetOr(config, jobname, Null).entries, "services", List([])).items;
            ServiceList(config, jobname).Ok? &&
            var defs := ServiceDefs(ServiceList(config, jobname).value);
            (defs.Ok? <==> ServiceDefs(all).Ok? && ServiceDefs(mine).Ok?) &&
            (defs.Ok? ==> defs.value == ServiceDefs(all).value + ServiceDefs(mine).value)
  {
    var all := GetOr(config, "services", List([])).items;
    var mine := GetOr(GetOr(config, jobname, Null).entries, "services", List([])).items;
    ServiceDefsAppend(all, mine);
  }

  // ---------------------------------------------------------------------
  // DockerTool: environment and volumes

  /** One entry of the tool's environment: a value, or None for a variable
      passed through from the caller's environment. */
  type Env = seq<(string, Option<string>)>

  function EnvKeys(env: Env): (ks: seq<string>)
    ensures |ks| == |env|
  {
    if env == [] then [] else [env[0].0] + EnvKeys(env[1..])
  }

  /** `env.get(name)`, for a name that is set. */
  function EnvGet(env: Env, name: string): (r: Option<Option<string>>)
    ensures r.Some? <==> name in EnvKeys(env)
  {
    if env == [] then None
    else if env[0].0 == name then Some(env[0].1)
    else EnvGet(env[1..], name)
  }

  /** `env[name] = value`: an existing name keeps its place, a new one goes
      last. */
  function EnvSet(env: Env, name: string, value: Option<string>): (r: Env)
    ensures |r| == if name in EnvKeys(env) then |env| else |env| + 1
  {
    if env == [] then [(name, value)]
    else if env[0].0 == name then [(name, value)] + env[1..]
    else
      assert EnvKeys(env) == [env[0].0] + EnvKeys(env[1..]);
      [env[0]] + EnvSet(env[1..], name, value)
  }

  /** After setting, the name reads back the new value, every other name
      reads what it read before, and the names keep their order. */
  lemma {:induction false} EnvSetFacts(env: Env, name: string, value: Option<string>)
    ensures EnvGet(EnvSet(env, name, value), name) == Some(value)
    ensures EnvKeys(EnvSet(env, name, value)) == if name in EnvKeys(env) then EnvKeys(env) else EnvKeys(env) + [name]
    ensures forall j :: j != name ==> EnvGet(EnvSet(env, name, value), j) == EnvGet(env, j)
  {
    var r := EnvSet(env, name, value);
    if env == [] {
    } else if env[0].0 == name {
      assert r[1..] == env[1..];
      assert EnvKeys(r) == [name] + EnvKeys(env[1..]);
      assert EnvKeys(env) == [name] + EnvKeys(env[1..]);
    } else {
      var rest := EnvSet(env[1..], name, value);
      EnvSetFacts(env[1..], name, value);
      assert r == [env[0]] + rest && r[1..] == rest;
      assert EnvKeys(r) == [env[0].0] + EnvKeys(rest);
      assert EnvKeys(env) == [env[0].0] + EnvKeys(env[1..]);
      assert name in EnvKeys(env) <==> name in EnvKeys(env[1..]);
    }
  }

  /** The argument that passes one variable: `NAME=VALUE`, or just `NAME`
      for None. */
  function EnvArg(entry: (string, Option<string>)): (arg: string)
    ensures entry.1.None? ==> arg == entry.0
    ensures entry.1.Some? ==> arg == entry.0 + "=" + entry.1.value
  {
    if entry.1.Some? then entry.0 + "=" + entry.1.value else entry.0
  }

  /** The `-e` arguments for a whole environment, in its order. */
  function EnvArgs(env: Env): (args: seq<string>)
    ensures |args| == 2 * |env|
  {
    if env == [] then [] else ["-e", EnvArg(env[0])] + EnvArgs(env[1..])
  }

  /** Each variable gives a `-e` flag followed by its argument, in order. */
  lemma {:induction false} EnvArgsAt(env: Env, i: nat)
    requires i < |env|
    ensures EnvArgs(env)[2 * i] == "-e" && EnvArgs(env)[2 * i + 1] == EnvArg(env[i])
  {
    if i > 0 {
      EnvArgsAt(env[1..], i - 1);
      assert EnvArgs(env)[2 * i] == EnvArgs(env[1..])[2 * (i - 1)];
      assert EnvArgs(env)[2 * i + 1] == EnvArgs(env[1..])[2 * (i - 1) + 1];
    }
  }

  lemma {:induction false} EnvArgsAppend(a: Env, b: Env)
    ensures EnvArgs(a + b) == EnvArgs(a) + EnvArgs(b)
  {
    if a == [] {
      assert a + b == b;
    } else {
      assert (a + b)[1..] == a[1..] + b;
      EnvArgsAppend(a[1..], b);
    }
  }

  /** A volume spec with its mode: `:ro` and `:rw` are kept, anything else
      gets `:rw`. */
  function NormaliseVolume(volume: string): (r: string)
    ensures Text.EndsWith(r, ":ro") || Text.EndsWith(r, ":rw")
    ensures Text.EndsWith(volume, ":ro") || Text.EndsWith(volume, ":rw") ==> r == volume
    ensures !(Text.EndsWith(volume, ":ro") || Text.EndsWith(volume, ":rw")) ==> r == volume + ":rw"
  {
    if Text.EndsWith(volume, ":ro") || Text.EndsWith(volume, ":rw") then volume
    else
      var r := volume + ":rw";
      assert r[|r| - 3..] == ":rw";
      r
  }

  /** Normalising twice is normalising once. */
  lemma NormaliseIdempotent(volume: string)
    ensures NormaliseVolume(NormaliseVolume(volume)) == NormaliseVolume(volume)
  {
  }

  /** The docker tool's settings that the job fills in before `run`. */
  class DockerTool {
    var env: Env
    var volumes: seq<string>

    constructor ()
      ensures env == [] && volumes == []
    {
      env := [];
      volumes := [];
    }

    /** add_volume: one more `outside:inside` bind, last. */
    method AddVolume(outside: string, inside: string)
      modifies this
      ensures volumes == old(volumes) + [outside + ":" + inside]
      ensures env == old(env)
    {
      volumes := volumes + [outside + ":" + inside];
    }

    /** add_env: sets exactly one variable. */
    method AddEnv(name: string, value: Option<string>)
      modifies this
      ensures env == EnvSet(old(env), name, value)
      ensures EnvGet(env, name) == Some(value)
      ensures forall j :: j != name ==> EnvGet(env, j) == EnvGet(old(env), j)
      ensures volumes == old(volumes)
    {
      EnvSetFacts(env, name, value);
      env := EnvSet(env, name, value);
    }

    /** get_envs: `-e` and the variable, for each variable in order. */
    method GetEnvs() returns (cmdline: seq<string>)
      ensures cmdline == EnvArgs(env)
    {
      cmdline := [];
      for i := 0 to |env|
        invariant cmdline == EnvArgs(env[..i])
      {
        var name := env[i].0;
        var value := env[i].1;
        if value.Some? {
          cmdline := cmdline + ["-e", name + "=" + value.value];
        } else {
          cmdline := cmdline + ["-e", name];
        }
        EnvArgsAppend(env[..i], [env[i]]);
        assert env[..i + 1] == env[..i] + [env[i]];
      }
      assert env[..|env|] == env;
    }

    /** The volume list `run` hands to docker: every volume with its mode. */
    method RunVolumes() returns (vols: seq<string>)
      ensures |vols| == |volumes|
      ensures forall i :: 0 <= i < |volumes| ==> vols[i] == NormaliseVolume(volumes[i])
    {
      vols := [];
      for i := 0 to |volumes|
        invariant |vols| == i
        invariant forall k :: 0 <= k < i ==> vols[k] == NormaliseVolume(volumes[k])
      {
        var entry := volumes[i];
        if !Text.EndsWith(entry, ":ro") && !Text.EndsWith(entry, ":rw") {
          entry := entry + ":rw";
        }
        vols := vols + [entry];
      }
    }
  }

  /** Setting a new variable adds its `-e` pair at the end; setting one
      already there changes only its own argument. */
  lemma AddEnvArgs(env: Env, name: string, value: Option<string>)
    ensures name !in EnvKeys(env) ==> EnvArgs(EnvSet(env, name, value)) == EnvArgs(env) + ["-e", EnvArg((name, value))]
    ensures name in EnvKeys(env) ==> |EnvArgs(EnvSet(env, name, value))| == |EnvArgs(env)|
  {
    if name !in EnvKeys(env) {
      EnvSetNew(env, name, value);
      EnvArgsAppend(env, [(name, value)]);
    }
  }

  /** A new name is appended. */
  lemma {:induction false} EnvSetNew(env: Env, name: string, value: Option<string>)
    requires name !in EnvKeys(env)
    ensures EnvSet(env, name, value) == env + [(name, value)]
  {
    if env != [] {
      assert EnvKeys(env) == [env[0].0] + EnvKeys(env[1..]);
      EnvSetNew(env[1..], name, value);
      assert env + [(name, value)] == [env[0]] + (env[1..] + [(name, value)]);
    }
  }
}
