/** The user configuration file's contexts: which context is current, the
    list of contexts, reading one setting of the current context, and the
    two in-place updates (switching context, overriding a setting). The
    configuration is the dictionary loaded from the YAML file. */
module UserConfig {
  import opened Wrappers
  import opened Yaml
  import Text

  /** The key that names the current context; it cannot name a context. */
  const CURRENT_CONTEXT: string := "current_context"

  /** The context used when none is chosen. */
  const EMULATOR: string := "emulator"

  /** How a call can fail: `fatal` logs and exits the process; the others
      are the exceptions Python raises on a value of the wrong shape. */
  datatype Fault = Fatal(message: string) | Raised(error: PyError)

  /** get_current_user_context, with the GLE_CONTEXT environment variable
      as a parameter: the environment wins, then the file's
      `current_context`, then `emulator`; the environment may not name
      `current_context`. */
  function GetCurrentUserContext(cfg: Dict, env: Option<string>): (r: Result<Value, Fault>)
    ensures r.Err? <==> env == Some(CURRENT_CONTEXT)
    ensures r.Err? ==> r.error == Fatal("'current_context' is not allowed for GLE_CONFIG")
    ensures r.Ok? && env.Some? ==> r.value == Str(env.value)
    ensures env.None? && CURRENT_CONTEXT in Keys(cfg) ==> Some(r.value) == Get(cfg, CURRENT_CONTEXT)
    ensures env.None? && CURRENT_CONTEXT !in Keys(cfg) ==> r.value == Str(EMULATOR)
  {
    if env == Some(CURRENT_CONTEXT) then Err(Fatal("'current_context' is not allowed for GLE_CONFIG"))
    else if env.Some? then Ok(Str(env.value))
    else Ok(GetOr(cfg, CURRENT_CONTEXT, Str(EMULATOR)))
  }

  /** get_user_contexts: every top-level key but `current_context`, plus
      `emulator` when the file lacks it, sorted. */
  function GetUserContexts(cfg: Dict): (r: seq<string>)
    ensures Text.Sorted(r)
    ensures EMULATOR in r && CURRENT_CONTEXT !in r
    ensures forall k :: k in r <==> (k in Keys(cfg) && k != CURRENT_CONTEXT) || k == EMULATOR
    ensures var top := Filter(Keys(cfg), CURRENT_CONTEXT);
            multiset(r) == multiset(top) + (if EMULATOR in top then multiset{} else multiset{EMULATOR})
  {
    var top := Filter(Keys(cfg), CURRENT_CONTEXT);
    var levels := if EMULATOR in top then top else top + [EMULATOR];
    var r := Text.Sort(levels);
    assert forall k :: k in r <==> k in multiset(r);
    assert forall k :: k in levels <==> k in multiset(levels);
    r
  }

  /** A file's list of contexts is the same whether or not it already
      records the default one. */
  lemma ContextsWithEmulator(cfg: Dict)
    requires EMULATOR !in Keys(cfg)
    ensures multiset(GetUserContexts(Set(cfg, EMULATOR, Map([])))) == multiset(GetUserContexts(cfg))
  {
    var ks := Keys(cfg);
    var top := Filter(ks, CURRENT_CONTEXT);
    var top2 := Filter(ks + [EMULATOR], CURRENT_CONTEXT);
    FilterSnoc(ks, EMULATOR, CURRENT_CONTEXT);
    assert top2 == top + [EMULATOR];
    assert EMULATOR in top2 && EMULATOR !in top;
  }

  /** Filtering distributes over appending one key. */
  lemma {:induction false} FilterSnoc(ks: seq<string>, x: string, k: string)
    ensures Filter(ks + [x], k) == Filter(ks, k) + (if x == k then [] else [x])
  {
    if ks != [] {
      assert (ks + [x])[1..] == ks[1..] + [x];
      FilterSnoc(ks[1..], x, k);
    } else {
      assert ks + [x] == [x];
    }
  }

  /** `cfg.get(current_context, {})`: the data of the named context, an
      empty mapping when there is none. A list or a mapping cannot be a
      dictionary key and raises TypeError (unhashable); any other value
      that is not a string names no context of a file whose keys are
      strings. */
  function ContextData(cfg: Dict, context: Value): (r: Result<Value, PyError>)
    ensures r.Err? <==> context.List? || context.Map?
    ensures r.Err? ==> r.error == TypeError
    ensures context.Str? && context.s in Keys(cfg) ==> r.Ok? && Some(r.value) == Get(cfg, context.s)
    ensures (context.Str? && context.s !in Keys(cfg)) || context.Null? || context.Bool? || context.Int? ==>
              r == Ok(Map([]))
  {
    match context
    case List(_) => Err(TypeError)
    case Map(_) => Err(TypeError)
    case Str(name) => Ok(GetOr(cfg, name, Map([])))
    case _ => Ok(Map([]))
  }

  /** get_user_config_value: the `name` setting of `section` in the current
      context, or the whole section when no name is given; `default` when
      the context or the section is missing or empty. A current context
      that is a list or a mapping cannot be looked up (TypeError); a context
      or section that is not a mapping has no `.get`, which raises
      AttributeError. */
  function GetUserConfigValue(cfg: Dict, env: Option<string>, section: string,
                              name: Option<string>, default: Value): (r: Result<Value, Fault>)
    ensures env == Some(CURRENT_CONTEXT) ==> r == Err(Fatal("'current_context' is not allowed for GLE_CONFIG"))
    ensures env != Some(CURRENT_CONTEXT) && ContextData(cfg, GetCurrentUserContext(cfg, env).value).Err? ==>
              r == Err(Raised(TypeError))
    ensures env != Some(CURRENT_CONTEXT) && ContextData(cfg, GetCurrentUserContext(cfg, env).value).Ok? ==>
              var data := ContextData(cfg, GetCurrentUserContext(cfg, env).value).value;
              (!Truthy(data) ==> r == Ok(default)) &&
              (Truthy(data) && !data.Map? ==> r == Err(Raised(AttributeError))) &&
              (Truthy(data) && data.Map? ==>
                 var sec := GetOr(data.entries, section, Map([]));
                 (!Truthy(sec) ==> r == Ok(default)) &&
                 (Truthy(sec) && (name.None? || name.value == []) ==> r == Ok(sec)) &&
                 (Truthy(sec) && name.Some? && name.value != [] ==>
                    (!sec.Map? ==> r == Err(Raised(AttributeError))) &&
                    (sec.Map? && name.value in Keys(sec.entries) ==> r.Ok? && Some(r.value) == Get(sec.entries, name.value)) &&
                    (sec.Map? && name.value !in Keys(sec.entries) ==> r == Ok(default))))
  {
    var context :- GetCurrentUserContext(cfg, env);
    var found := ContextData(cfg, context);
    if found.Err? then Err(Raised(found.error))
    else
      var data := found.value;
      if !Truthy(data) then Ok(default)
      else if !data.Map? then Err(Raised(AttributeError))
      else
        var sec := GetOr(data.entries, section, Map([]));
        if !Truthy(sec) then Ok(default)
        else if name.None? || name.value == [] then Ok(sec)
        else if !sec.Map? then Err(Raised(AttributeError))
        else Ok(GetOr(sec.entries, name.value, default))
  }

  /** A `current_context` entry that is a list or a mapping makes every
      read of a setting raise TypeError, with no GLE_CONTEXT set. */
  lemma UnhashableContext(cfg: Dict, section: string, name: Option<string>, default: Value)
    requires Get(cfg, CURRENT_CONTEXT).Some?
    requires Get(cfg, CURRENT_CONTEXT).value.List? || Get(cfg, CURRENT_CONTEXT).value.Map?
    ensures GetUserConfigValue(cfg, None, section, name, default) == Err(Raised(TypeError))
  {
    assert CURRENT_CONTEXT in Keys(cfg);
  }

  /** A dictionary that is updated in place: the data passed to
      `set_context`, or the module's loaded `_userconfig`. */
  class ConfigDict {
    var data: Dict

    constructor (data: Dict)
      ensures this.data == data
    {
      this.data := data;
    }
  }

  /** The context name `set_context` settles on. */
  function ContextName(context: string): (c: string)
    ensures context == "default" || context == EMULATOR ==> c == EMULATOR
    ensures context != "default" && context != EMULATOR ==> c == context
  {
    if context == "default" || context == EMULATOR then EMULATOR else context
  }

  /** set_context: refuses `current_context`; `default` means `emulator`;
      a missing context is created empty; the chosen name is recorded as
      current and returned. */
  method SetContext(cfg: ConfigDict, context: string) returns (r: Result<string, Fault>)
    modifies cfg
    ensures context == CURRENT_CONTEXT ==>
              r == Err(Fatal("'current_context' is not a permitted context name")) && cfg.data == old(cfg.data)
    ensures context != CURRENT_CONTEXT ==>
              var c := ContextName(context);
              r == Ok(c) && cfg.data == AfterSetContext(old(cfg.data), context)
  {
    if context == CURRENT_CONTEXT {
      return Err(Fatal("'current_context' is not a permitted context name"));
    }
    var c := ContextName(context);
    if c !in Keys(cfg.data) {
      cfg.data := Set(cfg.data, c, Map([]));
    }
    cfg.data := Set(cfg.data, CURRENT_CONTEXT, Str(c));
    r := Ok(c);
  }

  /** The dictionary `set_context` leaves behind: the context, created
      empty when missing, recorded as current. */
  function AfterSetContext(data: Dict, context: string): (r: Dict)
    requires context != CURRENT_CONTEXT
    ensures var c := ContextName(context);
            Get(r, CURRENT_CONTEXT) == Some(Str(c)) && c in Keys(r)
  {
    var c := ContextName(context);
    var d := if c in Keys(data) then data else Set(data, c, Map([]));
    assert c in Keys(d);
    var r := Set(d, CURRENT_CONTEXT, Str(c));
    SetOther(d, CURRENT_CONTEXT, Str(c), c);
    r
  }

  /** After `set_context`, with no GLE_CONTEXT in the environment, the
      chosen context is the current one, it is listed among the contexts,
      and every setting of every other context reads as before. */
  lemma SetContextThenCurrent(data: Dict, context: string)
    requires context != CURRENT_CONTEXT
    ensures var c := ContextName(context);
            var after := AfterSetContext(data, context);
            GetCurrentUserContext(after, None) == Ok(Str(c)) &&
            c in GetUserContexts(after) &&
            forall k :: k != c && k != CURRENT_CONTEXT ==> Get(after, k) == Get(data, k)
  {
    var c := ContextName(context);
    var d := if c in Keys(data) then data else Set(data, c, Map([]));
    SetOthers(d, CURRENT_CONTEXT, Str(c));
    SetOthers(data, c, Map([]));
    assert c != CURRENT_CONTEXT;
  }

  /** A context that already exists keeps its settings through
      `set_context`, so reading a setting afterwards finds what it held. */
  lemma SetContextKeepsSettings(data: Dict, context: string, section: string,
                                name: Option<string>, default: Value)
    requires context != CURRENT_CONTEXT && ContextName(context) in Keys(data)
    ensures var after := AfterSetContext(data, context);
            GetUserConfigValue(after, None, section, name, default)
            == GetUserConfigValue(data, Some(ContextName(context)), section, name, default)
  {
    var c := ContextName(context);
    var after := AfterSetContext(data, context);
    SetOther(data, CURRENT_CONTEXT, Str(c), c);
    assert GetCurrentUserContext(after, None) == Ok(Str(c));
    assert ContextData(after, Str(c)) == ContextData(data, Str(c));
  }

  /** The configuration a successful override leaves behind: the section,
      created empty when missing, with the one key set. */
  function AfterOverride(data: Dict, section: string, name: string, value: Value): (r: Dict)
    requires GetOr(data, section, Map([])).Map?
    ensures Get(r, section).Some? && Get(r, section).value.Map?
    ensures Get(Get(r, section).value.entries, name) == Some(value)
  {
    Set(data, section, Map(Set(GetOr(data, section, Map([])).entries, name, value)))
  }

  /** override_user_config_value on the loaded configuration: a missing
      section is created empty, then the one key is set in it; a section
      that is there but is not a mapping cannot take a key (TypeError). */
  method OverrideUserConfigValue(store: ConfigDict, section: string, name: string, value: Value)
    returns (r: Result<(), PyError>)
    modifies store
    ensures GetOr(old(store.data), section, Map([])).Map? ==>
              r.Ok? && store.data == AfterOverride(old(store.data), section, name, value)
    ensures !GetOr(old(store.data), section, Map([])).Map? ==>
              section in Keys(old(store.data)) && r == Err(TypeError) && store.data == old(store.data)
  {
    var sec := GetOr(store.data, section, Map([]));
    if !sec.Map? {
      return Err(TypeError);
    }
    store.data := Set(store.data, section, Map(Set(sec.entries, name, value)));
    r := Ok(());
  }

  /** An override sets only its one key: every other section, and every
      other key of the section, reads as before. */
  lemma OverrideOnlyThatKey(data: Dict, section: string, name: string, value: Value)
    requires GetOr(data, section, Map([])).Map?
    ensures var after := AfterOverride(data, section, name, value);
            var before := GetOr(data, section, Map([])).entries;
            (forall s :: s != section ==> Get(after, s) == Get(data, s)) &&
            (forall k :: k != name ==> Get(Get(after, section).value.entries, k) == Get(before, k))
  {
    var before := GetOr(data, section, Map([])).entries;
    SetOthers(data, section, Map(Set(before, name, value)));
    SetOthers(before, name, value);
  }

  /** Overriding keeps the configuration free of repeated keys. */
  lemma OverrideWellFormed(data: Dict, section: string, name: string, value: Value)
    requires WellFormed(data) && GetOr(data, section, Map([])).Map?
    ensures WellFormed(AfterOverride(data, section, name, value))
    ensures WellFormed(GetOr(data, section, Map([])).entries) ==>
              WellFormed(Get(AfterOverride(data, section, name, value), section).value.entries)
  {
    var before := GetOr(data, section, Map([])).entries;
    SetWellFormed(data, section, Map(Set(before, name, value)));
    if WellFormed(before) {
      SetWellFormed(before, name, value);
    }
  }
}
