/** The argument validators of the `glp` tool: `NAME=VALUE` pairs, and the
    `status=`/`ref=` match filters built on them. */
module GlpTypes {
  import opened Wrappers
  import opened Text

  datatype NameValue = NameValue(name: string, value: string)

  /** NameValuePair: `text.split("=")` must give exactly two parts, which
      become the name and the value; otherwise ArgumentTypeError. */
  function NameValuePair(text: string): (r: Result<NameValue, string>)
    ensures r.Ok? <==> Count(text, '=') == 1
    ensures r.Ok? ==> text == r.value.name + "=" + r.value.value
                      && '=' !in r.value.name && '=' !in r.value.value
    ensures r.Err? ==> r.error == "expected X=Y"
  {
    SplitCount(text, '=');
    var params := Split(text, '=');
    if |params| == 2 then
      assert params[1..] == [params[1]];
      Ok(NameValue(params[0], params[1]))
    else Err("expected X=Y")
  }

  /** A name and a value without `=` are read back from `name=value`. */
  lemma NameValueRoundTrip(name: string, value: string)
    requires '=' !in name && '=' !in value
    ensures NameValuePair(name + "=" + value) == Ok(NameValue(name, value))
  {
    assert name + "=" + value == Join([name, value], "=") by {
      assert [name, value][1..] == [value];
    }
    SplitJoin([name, value], '=');
  }

  /** `foo` and `a=b=c` are refused. */
  lemma NameValueRefused()
    ensures NameValuePair("foo").Err? && NameValuePair("a=b=c").Err?
  {
    CountZero("foo", '=');
    assert "a=b=c" == "a=" + "b=c" && "b=c" == "b=" + "c";
    CountAppend("a=", "b=c", '=');
    CountAppend("b=", "c", '=');
    assert Count("a=", '=') == 1 && Count("b=", '=') == 1;
  }

  /** `bar=` and `=foo` are accepted, with an empty value and an empty
      name. */
  lemma NameValueEmptyParts()
    ensures NameValuePair("bar" + "=") == Ok(NameValue("bar", ""))
    ensures NameValuePair("=" + "foo") == Ok(NameValue("", "foo"))
  {
    NameValueRoundTrip("bar", "");
    assert "bar" + "=" + "" == "bar" + "=";
    NameValueRoundTrip("", "foo");
    assert "" + "=" + "foo" == "=" + "foo";
  }

  /** The names a match filter accepts. */
  const NAMES: seq<string> := ["status", "ref"]

  /** Match: a name/value pair whose name is `status` or `ref` and whose
      value is not empty; each refusal has its own message. */
  function Match(text: string): (r: Result<NameValue, string>)
    ensures r.Ok? <==> NameValuePair(text).Ok? && NameValuePair(text).value.name in NAMES
                       && NameValuePair(text).value.value != []
    ensures r.Ok? ==> r == NameValuePair(text)
    ensures NameValuePair(text).Ok? && NameValuePair(text).value.name !in NAMES ==>
              r == Err("'" + NameValuePair(text).value.name + "' is not one of ['status', 'ref']")
  {
    var pair :- NameValuePair(text);
    if pair.name !in NAMES then Err("'" + pair.name + "' is not one of ['status', 'ref']")
    else if pair.value == [] then
      if pair.name == "ref" then Err("you must supply a branch name or tag")
      else Err("you must supply a status value")
    else Ok(pair)
  }

  /** An empty value is refused with the message for its name. */
  lemma MatchEmptyValue(name: string)
    requires name in NAMES
    ensures name == "ref" ==> Match(name + "=") == Err("you must supply a branch name or tag")
    ensures name == "status" ==> Match(name + "=") == Err("you must supply a status value")
  {
    NameValueRoundTrip(name, "");
    assert name + "=" + "" == name + "=";
  }

  /** A name other than `status` and `ref`, as in `cat=dog`, is refused
      for its name. */
  lemma MatchUnknownName(name: string, value: string)
    requires '=' !in name && '=' !in value && name !in NAMES
    ensures Match(name + "=" + value) == Err("'" + name + "' is not one of ['status', 'ref']")
  {
    NameValueRoundTrip(name, value);
  }
}
