/** `$NAME` expansion in pipeline variables: the first `$\w+` match picks
    one variable, and every match in the text is replaced by its value.
    The value reaches `re.sub` as a replacement template, so its backslash
    escapes and group references are expanded, and a malformed one raises. */
module Variables {
  import opened Wrappers
  import opened Text

  /** `\w`, on ASCII: a letter, a digit or `_`. */
  predicate IsWord(c: char) {
    ('a' <= c <= 'z') || ('A' <= c <= 'Z') || ('0' <= c <= '9') || c == '_'
  }

  /** A match of `\$\w+` starts at position i. */
  predicate VarAt(s: string, i: int) {
    0 <= i && i + 1 < |s| && s[i] == '$' && IsWord(s[i + 1])
  }

  /** The text holds no match at all. */
  predicate NoVar(s: string) {
    forall i :: 0 <= i < |s| ==> !VarAt(s, i)
  }

  /** The length of the run of word characters that starts the text: the
      greedy `\w+`. */
  function WordRun(s: string): (n: nat)
    ensures n <= |s| && (n == |s| || !IsWord(s[n]))
    ensures forall k :: 0 <= k < n ==> IsWord(s[k])
  {
    if s != [] && IsWord(s[0]) then 1 + WordRun(s[1..]) else 0
  }

  /** `VARIABLE_PATTERN.search`: where the first match starts. */
  function FirstVar(s: string): (r: Option<nat>)
    ensures r.None? <==> NoVar(s)
    ensures r.Some? ==> VarAt(s, r.value) && forall j :: 0 <= j < r.value ==> !VarAt(s, j)
  {
    if |s| < 2 then None
    else if VarAt(s, 0) then Some(0)
    else
      var r := FirstVar(s[1..]);
      assert forall j :: VarAt(s[1..], j) <==> VarAt(s, j + 1);
      assert forall j :: VarAt(s, j) ==> j == 0 || VarAt(s[1..], j - 1);
      if r.None? then None else Some(r.value + 1)
  }

  /** The name of the first match: the word characters after its `$`. */
  function FirstName(s: string): (name: Option<string>)
    ensures name.None? <==> NoVar(s)
    ensures name.Some? ==> name.value != [] && forall k :: 0 <= k < |name.value| ==> IsWord(name.value[k])
  {
    match FirstVar(s)
    case None => None
    case Some(i) => Some(s[i + 1..][..WordRun(s[i + 1..])])
  }

  /** `variables.get(name, "")`. */
  function Lookup(variables: map<string, string>, name: string): (v: string)
    ensures name in variables ==> v == variables[name]
    ensures name !in variables ==> v == ""
  {
    if name in variables then variables[name] else ""
  }

  // ---------------------------------------------------------------------
  // The replacement template

  /** A piece of a parsed template: a character, or a reference to a group
      of the match. */
  datatype Piece = Lit(c: char) | Group(index: nat)

  /** What a malformed template raises: `re.error`, or IndexError for a
      group name the pattern does not define. */
  datatype TemplateFault = ReError | UnknownGroupName

  /** `(\$\w+)` has one group, and it holds the whole match. */
  const GroupCount: nat := 1

  /** The template's tokenizer reads one token ahead, and a backslash with
      nothing after it is refused as soon as it is read ahead. */
  predicate LoneBackslash(t: string) {
    t == "\\"
  }

  predicate IsOctal(c: char) {
    '0' <= c <= '7'
  }

  predicate IsAsciiLetter(c: char) {
    ('a' <= c <= 'z') || ('A' <= c <= 'Z')
  }

  /** A group name that `str.isidentifier` accepts, on ASCII. */
  predicate IsIdentifier(s: string) {
    s != [] && (IsAsciiLetter(s[0]) || s[0] == '_') && forall k :: 0 <= k < |s| ==> IsWord(s[k])
  }

  /** Every group reference names a group the pattern has. */
  predicate Bounded(p: seq<Piece>) {
    forall k :: 0 <= k < |p| && p[k].Group? ==> p[k].index <= GroupCount
  }

  predicate NoGroup(p: seq<Piece>) {
    forall k :: 0 <= k < |p| ==> p[k].Lit?
  }

  /** The one-letter escapes of a template, and `\\`. */
  function LetterEscape(c: char): Option<char> {
    match c
    case 'a' => Some(7 as char)
    case 'b' => Some(8 as char)
    case 'f' => Some(12 as char)
    case 'n' => Some(10 as char)
    case 'r' => Some(13 as char)
    case 't' => Some(9 as char)
    case 'v' => Some(11 as char)
    case '\\' => Some('\\')
    case _ => None
  }

  /** A parsing step's outcome: the pieces of one token and the text left. */
  type Stepped = Result<(seq<Piece>, string), TemplateFault>

  /** The step's token is consumed, which reads the next token ahead. */
  function Consumed(p: seq<Piece>, rest: string): (r: Stepped)
    ensures r.Ok? <==> !LoneBackslash(rest)
    ensures r.Ok? ==> r.value == (p, rest)
    ensures r.Err? ==> r.error == ReError
  {
    if LoneBackslash(rest) then Err(ReError) else Ok((p, rest))
  }

  /** addgroup: a reference to a group the pattern lacks is refused. */
  function AddGroup(g: nat, rest: string): (r: Stepped)
    ensures r.Ok? <==> g <= GroupCount
    ensures r.Ok? ==> r.value == ([Group(g)], rest)
    ensures r.Err? ==> r.error == ReError
  {
    if g > GroupCount then Err(ReError) else Ok(([Group(g)], rest))
  }

  /** Where the `>` token closing a group name is, read token by token: a
      backslash and the character after it form one token. None when the
      text ends, or ends in a lone backslash, first. */
  function CloseAt(u: string): (k: Option<nat>)
    ensures k.Some? ==> k.value < |u| && u[k.value] == '>'
    decreases |u|
  {
    if u == [] then None
    else if u[0] == '>' then Some(0)
    else if u[0] == '\\' then
      if |u| < 2 then None
      else match CloseAt(u[2..])
        case None => None
        case Some(k) => Some(k + 2)
    else match CloseAt(u[1..])
      case None => None
      case Some(k) => Some(k + 1)
  }

  /** `\g<name>`, after `\g`: a name of digits refers to a group by
      number; an identifier refers to a group by name, and this pattern
      names none; anything else, and a missing `<`, `>` or name, is
      refused. */
  function GroupRef(rest: string): (r: Stepped)
    requires !LoneBackslash(rest)
    ensures r.Ok? ==> |r.value.1| < |rest| && !LoneBackslash(r.value.1) && Bounded(r.value.0)
    ensures r == Err(UnknownGroupName) ==> rest != [] && rest[0] == '<'
  {
    if rest == [] || rest[0] != '<' || LoneBackslash(rest[1..]) then Err(ReError)
    else
      var u := rest[1..];
      match CloseAt(u)
      case None => Err(ReError)
      case Some(k) =>
        var name := u[..k];
        var after := u[k + 1..];
        if LoneBackslash(after) || name == [] then Err(ReError)
        else if IsNumeric(name) then AddGroup(ParseNat(name), after)
        else if IsIdentifier(name) then Err(UnknownGroupName)
        else Err(ReError)
  }

  /** `\0` and up to two more octal digits: the character with that code. */
  function Octal0(rest: string): (r: Stepped)
    requires !LoneBackslash(rest)
    ensures r.Ok? ==> |r.value.1| <= |rest| && !LoneBackslash(r.value.1) && NoGroup(r.value.0)
    ensures r.Err? ==> r.error == ReError
  {
    if rest == [] || !IsOctal(rest[0]) then Ok(([Lit(0 as char)], rest))
    else
      var d1 := DigitValue(rest[0]);
      var r1 := rest[1..];
      if LoneBackslash(r1) then Err(ReError)
      else if r1 == [] || !IsOctal(r1[0]) then Ok(([Lit(d1 as char)], r1))
      else Consumed([Lit((8 * d1 + DigitValue(r1[0])) as char)], r1[1..])
  }

  /** A backslash and the digit c (not 0): three octal digits give the
      character with that code, which must be at most 0o377; otherwise one
      or two digits refer to a group by number. */
  function Numbered(c: char, rest: string): (r: Stepped)
    requires '1' <= c <= '9' && !LoneBackslash(rest)
    ensures r.Ok? ==> |r.value.1| <= |rest| && !LoneBackslash(r.value.1) && Bounded(r.value.0)
    ensures r.Err? ==> r.error == ReError
  {
    if rest == [] || !IsDigit(rest[0]) then AddGroup(DigitValue(c), rest)
    else
      var d := rest[0];
      var r1 := rest[1..];
      if LoneBackslash(r1) then Err(ReError)
      else if IsOctal(c) && IsOctal(d) && r1 != [] && IsOctal(r1[0]) then
        var v := 64 * DigitValue(c) + 8 * DigitValue(d) + DigitValue(r1[0]);
        if LoneBackslash(r1[1..]) || v > 255 then Err(ReError)
        else Ok(([Lit(v as char)], r1[1..]))
      else AddGroup(10 * DigitValue(c) + DigitValue(d), r1)
  }

  /** One token of the template: a plain character stands for itself; a
      backslash escape is a group reference, an octal or letter escape, a
      refused unknown letter escape, or else kept with its backslash. */
  function Step(t: string): (r: Stepped)
    requires t != [] && !LoneBackslash(t)
    ensures r.Ok? ==> |r.value.1| < |t| && !LoneBackslash(r.value.1) && Bounded(r.value.0)
    ensures t[0] != '\\' ==> r == Consumed([Lit(t[0])], t[1..])
  {
    if t[0] != '\\' then Consumed([Lit(t[0])], t[1..])
    else
      var c := t[1];
      var rest := t[2..];
      if LoneBackslash(rest) then Err(ReError)
      else if c == 'g' then GroupRef(rest)
      else if c == '0' then Octal0(rest)
      else if IsDigit(c) then Numbered(c, rest)
      else if LetterEscape(c).Some? then Ok(([Lit(LetterEscape(c).value)], rest))
      else if IsAsciiLetter(c) then Err(ReError)
      else Ok(([Lit('\\'), Lit(c)], rest))
  }

  function ParseRest(t: string): (r: Result<seq<Piece>, TemplateFault>)
    requires !LoneBackslash(t)
    ensures r.Ok? ==> Bounded(r.value)
    decreases |t|
  {
    if t == [] then Ok([])
    else
      match Step(t)
      case Err(e) => Err(e)
      case Ok((p, rest)) =>
        match ParseRest(rest)
        case Err(e) => Err(e)
        case Ok(more) => Ok(p + more)
  }

  /** The parse `re.sub` makes of a replacement template: its pieces, each
      group reference naming a group the pattern has, or the fault. */
  function ParseTemplate(t: string): (r: Result<seq<Piece>, TemplateFault>)
    ensures r.Ok? ==> Bounded(r.value)
    ensures LoneBackslash(t) ==> r == Err(ReError)
  {
    if LoneBackslash(t) then Err(ReError) else ParseRest(t)
  }

  /** The text a parsed template gives for the match m: each group
      reference becomes m, since group 0 and group 1 are both the whole
      match. */
  function Expand(p: seq<Piece>, m: string): string {
    if p == [] then []
    else (match p[0] case Lit(c) => [c] case Group(_) => m) + Expand(p[1..], m)
  }

  /** The pieces of a text taken literally. */
  function Lits(v: string): (p: seq<Piece>)
    ensures |p| == |v| && NoGroup(p)
  {
    seq(|v|, k requires 0 <= k < |v| => Lit(v[k]))
  }

  /** `VARIABLE_PATTERN.sub(template, s)`: every match, scanned left to
      right and each as long as possible, replaced by the template's text
      for that match. */
  function SubVars(s: string, tpl: seq<Piece>): (r: string)
    ensures NoVar(s) ==> r == s
    decreases |s|
  {
    if s == [] then []
    else if VarAt(s, 0) then
      var n := WordRun(s[1..]);
      Expand(tpl, s[..1 + n]) + SubVars(s[1 + n..], tpl)
    else
      assert forall j :: VarAt(s[1..], j) ==> VarAt(s, j + 1);
      [s[0]] + SubVars(s[1..], tpl)
  }

  /** A text with no match, and no word character at its start. */
  predicate Clean(v: string) {
    NoVar(v) && (v == [] || !IsWord(v[0]))
  }

  /** expand_variable: without a match the text comes back unchanged;
      otherwise the first match's name is looked up (missing means empty)
      and its value, read as a template, replaces every match. A value
      that is not a valid template raises; one whose template has no group
      reference and whose text is clean leaves no `$NAME` behind. */
  function ExpandVariable(variables: map<string, string>, haystack: string): (r: Result<string, TemplateFault>)
    ensures NoVar(haystack) ==> r == Ok(haystack)
    ensures !NoVar(haystack) ==>
              var parsed := ParseTemplate(Lookup(variables, FirstName(haystack).value));
              && (r.Err? <==> parsed.Err?)
              && (r.Err? ==> r.error == parsed.error)
              && (r.Ok? && NoGroup(parsed.value) && Clean(Expand(parsed.value, [])) ==> NoVar(r.value))
  {
    match FirstName(haystack)
    case None => Ok(haystack)
    case Some(name) =>
      match ParseTemplate(Lookup(variables, name))
      case Err(e) => Err(e)
      case Ok(tpl) =>
        SubVarsCleanWhen(haystack, tpl);
        Ok(SubVars(haystack, tpl))
  }

  // ---------------------------------------------------------------------
  // Facts about templates

  /** A value without a backslash is used as it is. */
  lemma {:induction false} PlainTemplate(v: string)
    requires '\\' !in v
    ensures ParseTemplate(v) == Ok(Lits(v))
    decreases |v|
  {
    if v != [] {
      assert '\\' !in v[1..] by {
        forall k | 0 <= k < |v[1..]| ensures v[1..][k] != '\\' { assert v[1..][k] == v[k + 1]; }
      }
      PlainTemplate(v[1..]);
      assert Lits(v) == [Lit(v[0])] + Lits(v[1..]);
    }
  }

  /** A text taken literally expands to itself, whatever the match. */
  lemma {:induction false} ExpandLits(v: string, m: string)
    ensures Expand(Lits(v), m) == v
    decreases |v|
  {
    if v != [] {
      assert Lits(v)[1..] == Lits(v[1..]);
      ExpandLits(v[1..], m);
    }
  }

  /** A template without group references gives the same text for every
      match. */
  lemma {:induction false} ExpandNoGroup(p: seq<Piece>, m: string)
    requires NoGroup(p)
    ensures Expand(p, m) == Expand(p, [])
    decreases |p|
  {
    if p != [] {
      assert NoGroup(p[1..]) by {
        forall k | 0 <= k < |p[1..]| ensures p[1..][k].Lit? { assert p[1..][k] == p[k + 1]; }
      }
      ExpandNoGroup(p[1..], m);
    }
  }

  /** Every backslash doubled: the template that stands for the text
      itself. */
  function Escaped(v: string): (t: string)
    ensures v == [] <==> t == []
    ensures t != [] && t[0] == '\\' ==> |t| >= 2 && t[1] == '\\'
    ensures !LoneBackslash(t)
    decreases |v|
  {
    if v == [] then []
    else
      var head := if v[0] == '\\' then "\\\\" else [v[0]];
      assert head[0] == '\\' ==> |head| == 2 && head[1] == '\\';
      head + Escaped(v[1..])
  }

  /** Doubling the backslashes of a text gives a template that expands
      back to the text. */
  lemma {:induction false} EscapedRoundTrip(v: string)
    ensures ParseTemplate(Escaped(v)) == Ok(Lits(v))
    decreases |v|
  {
    if v != [] {
      var rest := Escaped(v[1..]);
      EscapedRoundTrip(v[1..]);
      assert Lits(v) == [Lit(v[0])] + Lits(v[1..]);
      if v[0] == '\\' {
        var t := "\\\\" + rest;
        assert t[0] == '\\' && t[1] == '\\' && t[2..] == rest;
        assert Step(t) == Ok(([Lit('\\')], rest));
      } else {
        var t := [v[0]] + rest;
        assert t[1..] == rest;
      }
    }
  }

  /** A text without a backslash cannot make a lone backslash. */
  lemma PlainNotLone(p: string, rest: string)
    requires '\\' !in p && !LoneBackslash(rest)
    ensures !LoneBackslash(p + rest)
  {
    if p != [] {
      assert (p + rest)[0] == p[0] && p[0] in p;
    } else {
      assert p + rest == rest;
    }
  }

  /** Parsing reads a text without a backslash as its own characters, in
      front of whatever the rest gives. */
  lemma {:induction false} ParsePlainHead(p: string, rest: string)
    requires '\\' !in p && !LoneBackslash(rest)
    ensures !LoneBackslash(p + rest)
    ensures ParseRest(p + rest) == match ParseRest(rest)
                                   case Ok(q) => Ok(Lits(p) + q)
                                   case Err(e) => Err(e)
    decreases |p|
  {
    PlainNotLone(p, rest);
    if p == [] {
      assert p + rest == rest && Lits(p) == [];
      match ParseRest(rest)
      case Ok(q) => assert Lits(p) + q == q;
      case Err(_) =>
    } else {
      var t := p + rest;
      assert t[0] == p[0] && t[1..] == p[1..] + rest;
      assert '\\' !in p[1..] by {
        forall k | 0 <= k < |p[1..]| ensures p[1..][k] != '\\' { assert p[1..][k] == p[k + 1]; }
      }
      ParsePlainHead(p[1..], rest);
      assert p[0] in p;
      assert Step(t) == Ok(([Lit(p[0])], p[1..] + rest));
      assert Lits(p) == [Lit(p[0])] + Lits(p[1..]);
      match ParseRest(rest)
      case Ok(q) =>
        assert ParseRest(t) == Ok([Lit(p[0])] + (Lits(p[1..]) + q));
        assert [Lit(p[0])] + (Lits(p[1..]) + q) == Lits(p) + q;
      case Err(e) =>
        assert ParseRest(t) == Err(e);
    }
  }

  /** A Windows path's `\t` is a tab. */
  lemma TemplateTab()
    ensures ParseTemplate("C:\\temp") == Ok(Lits("C:\temp"))
  {
    var e := "\\temp";
    assert e[0] == '\\' && e[1] == 't' && e[2..] == "emp";
    PlainTemplate("emp");
    assert Step(e) == Ok(([Lit(9 as char)], "emp"));
    assert ParseRest(e) == Ok([Lit(9 as char)] + Lits("emp"));
    ParsePlainHead("C:", e);
    assert "C:\\temp" == "C:" + e;
    assert ParseTemplate("C:" + e) == ParseRest("C:" + e);
    assert ParseRest("C:" + e) == Ok(Lits("C:") + ([Lit(9 as char)] + Lits("emp")));
    assert Lits("C:\temp") == Lits("C:") + ([Lit(9 as char)] + Lits("emp"));
  }

  /** A Windows path's `\U` is an unknown letter escape, refused. */
  lemma TemplateBadEscape()
    ensures ParseTemplate("C:\\Users") == Err(ReError)
  {
    var e := "\\Users";
    assert e[0] == '\\' && e[1] == 'U' && e[2..] == "sers";
    assert Step(e) == Err(ReError);
    ParsePlainHead("C:", e);
    assert "C:\\Users" == "C:" + e;
  }

  /** A lone backslash at the end is refused. */
  lemma TemplateTrailingBackslash()
    ensures ParseTemplate("a\\") == Err(ReError)
  {
    var t := "a\\";
    assert t[0] == 'a' && t[1..] == "\\";
  }

  /** The pattern has no second group. */
  lemma TemplateSecondGroup()
    ensures ParseTemplate("\\2") == Err(ReError)
  {
    var t := "\\2";
    assert t[0] == '\\' && t[1] == '2' && t[2..] == [];
    assert Step(t) == Err(ReError);
  }

  /** The pattern names no group, so `\g<name>` raises IndexError. */
  lemma TemplateNamedGroup()
    ensures ParseTemplate("\\g<name>") == Err(UnknownGroupName)
  {
    var g := "\\g<name>";
    assert g[0] == '\\' && g[1] == 'g' && g[2..] == "<name>";
    var u := "name>";
    assert "<name>"[1..] == u;
    assert CloseAt(u) == Some(4) by {
      assert u[1..] == "ame>" && u[2..] == "me>" && u[3..] == "e>" && u[4..] == ">";
      assert CloseAt(u[4..]) == Some(0);
      assert CloseAt(u[3..]) == Some(1);
      assert CloseAt(u[2..]) == Some(2);
      assert CloseAt(u[1..]) == Some(3);
    }
    assert u[..4] == "name" && u[5..] == [];
    assert !IsNumeric("name") by { assert !IsDigit("name"[0]); }
    assert IsIdentifier("name");
    assert GroupRef("<name>") == Err(UnknownGroupName);
    assert Step(g) == Err(UnknownGroupName);
  }

  /** `\1` and `\g<0>` refer to the match itself. */
  lemma TemplateBackrefs()
    ensures ParseTemplate("\\1") == Ok([Group(1)])
    ensures ParseTemplate("\\g<0>") == Ok([Group(0)])
  {
    var t := "\\1";
    assert t[0] == '\\' && t[1] == '1' && t[2..] == [];
    assert Step(t) == Ok(([Group(1)], []));
    assert [Group(1)] + [] == [Group(1)];
    var g := "\\g<0>";
    assert g[0] == '\\' && g[1] == 'g' && g[2..] == "<0>";
    assert "<0>"[1..] == "0>";
    assert CloseAt("0>") == Some(1) by { assert "0>"[1..] == ">"; }
    assert "0>"[..1] == "0" && "0>"[2..] == [];
    assert IsNumeric("0") && ParseNat("0") == 0 by { assert "0"[..0] == []; }
    assert GroupRef("<0>") == Ok(([Group(0)], []));
    assert Step(g) == Ok(([Group(0)], []));
    assert [Group(0)] + [] == [Group(0)];
  }

  /** A template that is one group reference replaces every match by
      itself, so the text comes back unchanged, `$NAME` included. */
  lemma {:induction false} SubVarsGroupOnly(s: string, g: nat)
    ensures SubVars(s, [Group(g)]) == s
    decreases |s|
  {
    if s != [] {
      if VarAt(s, 0) {
        var n := WordRun(s[1..]);
        SubVarsGroupOnly(s[1 + n..], g);
        assert Expand([Group(g)], s[..1 + n]) == s[..1 + n];
        assert s == s[..1 + n] + s[1 + n..];
      } else {
        SubVarsGroupOnly(s[1..], g);
      }
    }
  }

  /** A value `\1` or `\g<0>` gives every match back, so the text comes
      back unchanged, `$NAME` and all. */
  lemma BackrefKeepsText(variables: map<string, string>, haystack: string)
    requires FirstName(haystack).Some?
    requires Lookup(variables, FirstName(haystack).value) in {"\\1", "\\g<0>"}
    ensures ExpandVariable(variables, haystack) == Ok(haystack)
    ensures !NoVar(haystack)
  {
    TemplateBackrefs();
    SubVarsGroupOnly(haystack, 0);
    SubVarsGroupOnly(haystack, 1);
  }

  /** `$A` with A set to `\1` expands to `$A` itself. */
  lemma BackrefKeepsVariable()
    ensures ExpandVariable(map["A" := "\\1"], "$A") == Ok("$A")
  {
    FirstNameOf("A", []);
    assert "$" + "A" + [] == "$A";
    assert Lookup(map["A" := "\\1"], "A") == "\\1";
    BackrefKeepsText(map["A" := "\\1"], "$A");
  }

  /** A text that is one match is replaced as a whole. */
  lemma SubVarsOne(name: string, tpl: seq<Piece>)
    requires name != [] && forall k :: 0 <= k < |name| ==> IsWord(name[k])
    ensures SubVars("$" + name, tpl) == Expand(tpl, "$" + name)
  {
    SubVarsMatch(name, [], tpl);
    assert "$" + name + [] == "$" + name;
    assert SubVars([], tpl) == [];
    assert Expand(tpl, "$" + name) + [] == Expand(tpl, "$" + name);
  }

  /** A text that is one `$NAME` expands to the template of NAME's value
      for that match. */
  lemma ExpandOne(variables: map<string, string>, name: string)
    requires name != [] && forall k :: 0 <= k < |name| ==> IsWord(name[k])
    ensures ExpandVariable(variables, "$" + name)
            == match ParseTemplate(Lookup(variables, name))
               case Err(e) => Err(e)
               case Ok(tpl) => Ok(Expand(tpl, "$" + name))
  {
    FirstNameOf(name, []);
    assert "$" + name + [] == "$" + name;
    match ParseTemplate(Lookup(variables, name))
    case Err(_) =>
    case Ok(tpl) => SubVarsOne(name, tpl);
  }

  /** A Windows path as the value: its `\t` turns into a tab. */
  lemma TabInValue()
    ensures ExpandVariable(map["P" := "C:\\temp"], "$P") == Ok("C:\temp")
  {
    var vars := map["P" := "C:\\temp"];
    assert Lookup(vars, "P") == "C:\\temp";
    ExpandOne(vars, "P");
    assert "$" + "P" == "$P";
    TemplateTab();
    ExpandLits("C:\temp", "$P");
  }

  // ---------------------------------------------------------------------
  // Facts about the replacement

  /** Two texts without a match make none when joined, unless the first
      ends in `$` and the second starts with a word character. */
  lemma NoVarAppend(a: string, b: string)
    requires NoVar(a) && NoVar(b)
    requires a == [] || a[|a| - 1] != '$' || b == [] || !IsWord(b[0])
    ensures NoVar(a + b)
  {
    forall i | 0 <= i < |a + b| ensures !VarAt(a + b, i) {
      if 0 <= i && i + 1 < |a| {
        assert !VarAt(a, i);
      } else if i >= |a| && i + 1 < |a + b| {
        assert !VarAt(b, i - |a|);
      }
    }
  }

  /** The first piece of a template is a group reference or a character
      that is not a word character. */
  predicate HeadSafe(tpl: seq<Piece>) {
    tpl == [] || tpl[0].Group? || !IsWord(tpl[0].c)
  }

  /** A head-safe template's text for a match starts with no word
      character, and is empty only when the template is. */
  lemma ExpandHead(tpl: seq<Piece>, m: string)
    requires HeadSafe(tpl) && m != [] && m[0] == '$'
    ensures var x := Expand(tpl, m); (x == [] <==> tpl == []) && (x == [] || !IsWord(x[0]))
  {
  }

  /** What the replacement produces from a text that does not start with a
      word character does not start with one either, when the template
      does not. */
  lemma {:induction false} SubVarsHead(s: string, tpl: seq<Piece>)
    requires HeadSafe(tpl)
    requires s == [] || !IsWord(s[0])
    ensures var r := SubVars(s, tpl); r == [] || !IsWord(r[0])
    decreases |s|
  {
    if s != [] && VarAt(s, 0) {
      var n := WordRun(s[1..]);
      ExpandHead(tpl, s[..1 + n]);
      if tpl == [] {
        assert s[1 + n..] == s[1..][n..];
        SubVarsHead(s[1 + n..], tpl);
      }
    }
  }

  /** The replacement leaves no match behind when the template has no group
      reference and its text has no match and does not start with a word
      character. */
  lemma {:induction false} SubVarsClean(s: string, tpl: seq<Piece>)
    requires NoGroup(tpl) && Clean(Expand(tpl, []))
    ensures NoVar(SubVars(s, tpl))
    decreases |s|
  {
    var value := Expand(tpl, []);
    assert HeadSafe(tpl) by {
      if tpl != [] { assert Expand(tpl, [])[0] == tpl[0].c; }
    }
    if s == [] {
    } else if VarAt(s, 0) {
      var n := WordRun(s[1..]);
      var t := s[1 + n..];
      assert t == s[1..][n..];
      ExpandNoGroup(tpl, s[..1 + n]);
      SubVarsClean(t, tpl);
      SubVarsHead(t, tpl);
      NoVarAppend(value, SubVars(t, tpl));
    } else {
      SubVarsClean(s[1..], tpl);
      if s[0] == '$' {
        SubVarsHead(s[1..], tpl);
      }
      NoVarAppend([s[0]], SubVars(s[1..], tpl));
    }
  }

  /** The same, as an implication. */
  lemma SubVarsCleanWhen(s: string, tpl: seq<Piece>)
    ensures NoGroup(tpl) && Clean(Expand(tpl, [])) ==> NoVar(SubVars(s, tpl))
  {
    if NoGroup(tpl) && Clean(Expand(tpl, [])) {
      SubVarsClean(s, tpl);
    }
  }

  /** A `$` that does not start a match, followed by a match whose value
      starts with a word character, makes a new match: `$$a` with a set to
      `b` expands to `$b`. */
  lemma DollarBeforeMatch()
    ensures ExpandVariable(map["a" := "b"], "$$a") == Ok("$b")
    ensures !NoVar("$b")
  {
    var vars := map["a" := "b"];
    var s := "$$a";
    assert !VarAt(s, 0) && VarAt(s, 1);
    assert FirstVar(s) == Some(1);
    assert s[2..] == "a" && WordRun("a") == 1;
    assert s[2..][..1] == "a";
    assert FirstName(s) == Some("a");
    assert Lookup(vars, "a") == "b";
    PlainTemplate("b");
    var tpl := Lits("b");
    assert ExpandVariable(vars, s) == Ok(SubVars(s, tpl));
    assert s == "$" + "$a" && s[1..] == "$a";
    SubVarsOne("a", tpl);
    ExpandLits("b", "$a");
    assert SubVars(s, tpl) == ['$'] + SubVars("$a", tpl);
    assert ['$'] + "b" == "$b";
    assert VarAt("$b", 0);
  }

  /** Every match is replaced by the template of the first one's value,
      whatever its own name: in `$A-$B` both matches expand the value of
      A, each for its own match. */
  lemma OneValueForAll(variables: map<string, string>, a: string, b: string, sep: string)
    requires a != [] && forall k :: 0 <= k < |a| ==> IsWord(a[k])
    requires b != [] && forall k :: 0 <= k < |b| ==> IsWord(b[k])
    requires sep != [] && !IsWord(sep[0]) && '$' !in sep
    ensures ExpandVariable(variables, "$" + a + sep + "$" + b)
            == match ParseTemplate(Lookup(variables, a))
               case Err(e) => Err(e)
               case Ok(tpl) => Ok(Expand(tpl, "$" + a) + sep + Expand(tpl, "$" + b))
  {
    var s := "$" + a + (sep + ("$" + b));
    assert s == "$" + a + sep + "$" + b;
    FirstNameOf(a, sep + ("$" + b));
    match ParseTemplate(Lookup(variables, a))
    case Err(_) =>
    case Ok(tpl) => SubVarsTwo(a, b, sep, tpl);
  }

  /** With a value free of backslashes, `$A<sep>$B` becomes the value of
      A, the separator, and the value of A again. */
  lemma OneValueForAllPlain(variables: map<string, string>, a: string, b: string, sep: string)
    requires a != [] && forall k :: 0 <= k < |a| ==> IsWord(a[k])
    requires b != [] && forall k :: 0 <= k < |b| ==> IsWord(b[k])
    requires sep != [] && !IsWord(sep[0]) && '$' !in sep
    requires '\\' !in Lookup(variables, a)
    ensures ExpandVariable(variables, "$" + a + sep + "$" + b) == Ok(Lookup(variables, a) + sep + Lookup(variables, a))
  {
    var value := Lookup(variables, a);
    OneValueForAll(variables, a, b, sep);
    PlainTemplate(value);
    ExpandLits(value, "$" + a);
    ExpandLits(value, "$" + b);
  }

  /** The name of a leading match is its whole word. */
  lemma FirstNameOf(a: string, t: string)
    requires a != [] && forall k :: 0 <= k < |a| ==> IsWord(a[k])
    requires t == [] || !IsWord(t[0])
    ensures FirstName("$" + a + t) == Some(a)
  {
    var s := "$" + a + t;
    assert VarAt(s, 0);
    WordRunOf(a, t);
    assert s[1..] == a + t;
    assert s[1..][..|a|] == a;
  }

  /** Both matches of `$A<sep>$B` give way to the template, each expanded
      for its own match. */
  lemma SubVarsTwo(a: string, b: string, sep: string, tpl: seq<Piece>)
    requires a != [] && forall k :: 0 <= k < |a| ==> IsWord(a[k])
    requires b != [] && forall k :: 0 <= k < |b| ==> IsWord(b[k])
    requires sep != [] && !IsWord(sep[0]) && '$' !in sep
    ensures SubVars("$" + a + (sep + ("$" + b)), tpl) == Expand(tpl, "$" + a) + sep + Expand(tpl, "$" + b)
  {
    var u := "$" + b;
    SubVarsMatch(a, sep + u, tpl);
    SubVarsPlain(sep, u, tpl);
    SubVarsMatch(b, [], tpl);
    assert u + [] == u;
    assert SubVars([], tpl) == [];
  }

  /** A match followed by a text that does not continue its name is
      replaced by the template's text for that match, and the rest
      follows. */
  lemma SubVarsMatch(w: string, rest: string, tpl: seq<Piece>)
    requires w != [] && forall k :: 0 <= k < |w| ==> IsWord(w[k])
    requires rest == [] || !IsWord(rest[0])
    ensures SubVars("$" + w + rest, tpl) == Expand(tpl, "$" + w) + SubVars(rest, tpl)
  {
    var s := "$" + w + rest;
    assert VarAt(s, 0);
    assert s[1..] == w + rest;
    WordRunOf(w, rest);
    assert s[1 + |w|..] == rest;
    assert s[..1 + |w|] == "$" + w;
  }

  /** The greedy run over a word followed by a non-word start is the word. */
  lemma {:induction false} WordRunOf(w: string, rest: string)
    requires forall k :: 0 <= k < |w| ==> IsWord(w[k])
    requires rest == [] || !IsWord(rest[0])
    ensures WordRun(w + rest) == |w|
  {
    if w != [] {
      assert (w + rest)[1..] == w[1..] + rest;
      WordRunOf(w[1..], rest);
    }
  }

  /** A text without `$` passes through unchanged in front of what
      follows. */
  lemma {:induction false} SubVarsPlain(p: string, rest: string, tpl: seq<Piece>)
    requires '$' !in p
    ensures SubVars(p + rest, tpl) == p + SubVars(rest, tpl)
    decreases |p|
  {
    if p != [] {
      assert (p + rest)[0] == p[0] && !VarAt(p + rest, 0);
      assert (p + rest)[1..] == p[1..] + rest;
      SubVarsPlain(p[1..], rest, tpl);
      assert SubVars(p + rest, tpl) == [p[0]] + SubVars(p[1..] + rest, tpl);
      assert p == [p[0]] + p[1..];
    } else {
      assert p + rest == rest;
    }
  }
}
