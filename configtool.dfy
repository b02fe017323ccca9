/** The `gle-config` command's context and variable settings: which
    variable names are secret, how variables are listed, how quotes are
    trimmed, and the updates `vars` and `context` make to the user
    configuration. */
module ConfigTool {
  import opened Wrappers
  import opened Text

  // ---------------------------------------------------------------------
  // Secret names and the variable listing

  /** The name parts that mark a variable as secret. */
  const SENSITIVE: seq<string> := ["PASSWORD", "TOKEN", "PRIVATE"]

  /** What a secret value is printed as. */
  const MASK: string := "************"

  /** sensitive_varname: the first of the marks the name contains decides. */
  function SensitiveVarname(name: string): (r: bool)
    ensures r <==> exists check :: check in SENSITIVE && Contains(name, check)
  {
    FirstContained(name, SENSITIVE).Some?
  }

  /** The loop over the marks: the first one found in the name. */
  function FirstContained(name: string, checks: seq<string>): (r: Option<string>)
    ensures r.None? <==> forall check :: check in checks ==> !Contains(name, check)
    ensures r.Some? ==> r.value in checks && Contains(name, r.value)
  {
    if checks == [] then None
    else if Contains(name, checks[0]) then
      assert checks[0] in checks;
      Some(checks[0])
    else
      var r := FirstContained(name, checks[1..]);
      assert forall check :: check in checks[1..] ==> check in checks;
      assert forall check :: check in checks ==> check == checks[0] || check in checks[1..];
      r
  }

  /** One line of the listing. */
  function VarLine(name: string, value: string): (line: string)
    ensures SensitiveVarname(name) ==> line == name + "=" + MASK
    ensures !SensitiveVarname(name) ==> line == name + "=" + value
  {
    name + "=" + (if SensitiveVarname(name) then MASK else value)
  }

  /** print_sensitive_vars, as the lines it prints: one per variable, in
      sorted name order, secret values masked. */
  function SensitiveLines(vars: map<string, string>): (lines: seq<string>)
    ensures var names := SortedElems(vars.Keys);
            |lines| == |names| &&
            forall i :: 0 <= i < |names| ==> lines[i] == VarLine(names[i], vars[names[i]])
  {
    var names := SortedElems(vars.Keys);
    seq(|names|, i requires 0 <= i < |names| => VarLine(names[i], vars[names[i]]))
  }

  /** Every variable has its line, and nothing else is listed; the lines
      follow the names in order. */
  lemma SensitiveLinesCover(vars: map<string, string>)
    ensures var names := SortedElems(vars.Keys);
            Sorted(names) && (forall n :: n in names <==> n in vars) &&
            forall n :: n in vars ==> VarLine(n, vars[n]) in SensitiveLines(vars)
  {
    var names := SortedElems(vars.Keys);
    forall n | n in vars
      ensures VarLine(n, vars[n]) in SensitiveLines(vars)
    {
      var i :| 0 <= i < |names| && names[i] == n;
      assert SensitiveLines(vars)[i] == VarLine(n, vars[n]);
    }
  }

  /** A secret value never shows: the line is the name and the mask. */
  lemma SecretMasked(name: string, value: string, vars: map<string, string>)
    requires name in vars && SensitiveVarname(name)
    ensures name + "=" + MASK in SensitiveLines(vars)
  {
    SensitiveLinesCover(vars);
  }

  // ---------------------------------------------------------------------
  // trim_quotes

  /** The text starts with `'` or `"` and ends with the same character. */
  predicate Quoted(text: string) {
    text != [] && (text[0] == '\'' || text[0] == '"') && text[0] == text[|text| - 1]
  }

  /** trim_quotes: a quoted text loses its first and last characters (a
      lone quote character becomes empty); any other text is unchanged. */
  function TrimQuotes(text: string): (r: string)
    ensures !Quoted(text) ==> r == text
    ensures Quoted(text) && |text| >= 2 ==> text == [text[0]] + r + [text[0]]
    ensures Quoted(text) && |text| == 1 ==> r == []
  {
    if Quoted(text) then
      if |text| == 1 then [] else text[1..|text| - 1]
    else text
  }

  /** Quoting a text and trimming gives the text back. */
  lemma TrimQuotesRoundTrip(q: char, s: string)
    requires q == '\'' || q == '"'
    ensures TrimQuotes([q] + s + [q]) == s
  {
    var t := [q] + s + [q];
    assert t[1..|t| - 1] == s;
  }

  /** Mismatched or missing quotes are kept. */
  lemma TrimQuotesKeeps()
    ensures TrimQuotes("'abc\"") == "'abc\""
    ensures TrimQuotes("abc") == "abc"
    ensures TrimQuotes("") == ""
  {
    assert !Quoted("'abc\"") by {
      assert "'abc\""[0] == '\'' && "'abc\""[4] == '"';
    }
    assert !Quoted("abc") by {
      assert "abc"[0] == 'a';
    }
  }

  // ---------------------------------------------------------------------
  // The user configuration that `vars` and `context` change

  /** The variables a context sets for local and for docker jobs. */
  datatype UserContext = UserContext(local: map<string, string>, docker: map<string, string>)

  const EMPTY_CONTEXT: UserContext := UserContext(map[], map[])

  /** The loaded user configuration: the current context's name and every
      context by name. */
  class UserConfig {
    var currentContext: string
    var contexts: map<string, UserContext>

    constructor (current: string, contexts: map<string, UserContext>)
      ensures currentContext == current && this.contexts == contexts
    {
      currentContext := current;
      this.contexts := contexts;
    }
  }

  /** set_context_cmd with a name: the name becomes current, and a context
      of that name is created, empty, when there is none. */
  method SetContextCmd(cfg: UserConfig, name: string)
    modifies cfg
    ensures cfg.currentContext == name && name in cfg.contexts
    ensures name in old(cfg.contexts) ==> cfg.contexts == old(cfg.contexts)
    ensures name !in old(cfg.contexts) ==> cfg.contexts == old(cfg.contexts)[name := EMPTY_CONTEXT]
  {
    cfg.currentContext := name;
    if name !in cfg.contexts {
      cfg.contexts := cfg.contexts[name := EMPTY_CONTEXT];
    }
  }

  /** The change `vars NAME=VALUE` makes: split at the first `=`; an empty
      value unsets the name (nothing happens when it is not set), any other
      value is stored with its quotes trimmed. */
  function UpdateVars(variables: map<string, string>, item: string): (r: map<string, string>)
    requires '=' in item
    ensures var (name, value) := SplitFirst(item, '=');
            (value == [] ==> r == variables - {name}) &&
            (value != [] ==> r == variables[name := TrimQuotes(value)])
  {
    var (name, value) := SplitFirst(item, '=');
    if value == [] then
      if name in variables then variables - {name} else variables
    else variables[name := TrimQuotes(value)]
  }

  /** Setting a name and then unsetting it leaves the name unset and every
      other variable as before. */
  lemma SetThenUnset(variables: map<string, string>, name: string, value: string)
    requires '=' !in name && value != []
    ensures UpdateVars(UpdateVars(variables, name + "=" + value), name + "=") == variables - {name}
  {
    SplitFirstJoin(name, '=', value);
    SplitFirstJoin(name, '=', []);
    assert name + "=" == name + "=" + [];
  }

  /** A quoted value is stored without its quotes; so the argument
      `NAME=""` stores the empty text, the way to set a variable to empty. */
  lemma QuotedValueStored(variables: map<string, string>, name: string, q: char, value: string)
    requires '=' !in name && (q == '\'' || q == '"')
    ensures UpdateVars(variables, name + "=" + ([q] + value + [q])) == variables[name := value]
  {
    SplitFirstJoin(name, '=', [q] + value + [q]);
    TrimQuotesRoundTrip(q, value);
  }

  /** What a `vars` command prints, or the KeyError it raises when the
      current context does not exist. */
  datatype VarsOutcome = Printed(lines: seq<string>) | KeyError(key: string)

  /** vars_cmd: lists the local or docker variables of the current context,
      sets or unsets one (`NAME=VALUE`), or shows one (`NAME`). The notices
      and warnings go to standard error and saving to disk is not part of
      the model. */
  method VarsCmd(cfg: UserConfig, local: bool, item: Option<string>) returns (r: VarsOutcome)
    modifies cfg
    ensures cfg.currentContext == old(cfg.currentContext)
    ensures old(cfg.currentContext) !in old(cfg.contexts) ==>
              r == KeyError(old(cfg.currentContext)) && cfg.contexts == old(cfg.contexts)
    ensures old(cfg.currentContext) in old(cfg.contexts) ==>
              var ctx := old(cfg.contexts)[old(cfg.currentContext)];
              var variables := if local then ctx.local else ctx.docker;
              (item.None? ==> r == Printed(SensitiveLines(variables)) && cfg.contexts == old(cfg.contexts)) &&
              (item.Some? && '=' in item.value ==>
                 r == Printed([]) &&
                 cfg.contexts == old(cfg.contexts)[old(cfg.currentContext) :=
                   if local then ctx.(local := UpdateVars(variables, item.value))
                   else ctx.(docker := UpdateVars(variables, item.value))]) &&
              (item.Some? && '=' !in item.value ==>
                 cfg.contexts == old(cfg.contexts) &&
                 (item.value in variables ==> r == Printed(SensitiveLines(map[item.value := variables[item.value]]))) &&
                 (item.value !in variables ==> r == Printed([item.value + " is not set"])))
  {
    var current := cfg.currentContext;
    if current !in cfg.contexts {
      return KeyError(current);
    }
    var ctx := cfg.contexts[current];
    var variables := if local then ctx.local else ctx.docker;
    if item.None? {
      r := Printed(SensitiveLines(variables));
    } else if '=' in item.value {
      var updated := UpdateVars(variables, item.value);
      var newCtx := if local then ctx.(local := updated) else ctx.(docker := updated);
      cfg.contexts := cfg.contexts[current := newCtx];
      r := Printed([]);
    } else if item.value in variables {
      r := Printed(SensitiveLines(map[item.value := variables[item.value]]));
    } else {
      r := Printed([item.value + " is not set"]);
    }
  }
}
