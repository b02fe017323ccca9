/** Decoding the `--from` argument that names a pipeline on a GitLab
    server, and the one-line description of what was decoded. */
module GitlabClientApi {
  import opened Wrappers
  import opened Text

  /** What `--from` names: each part is None when the argument does not
      give it. */
  datatype GitlabIdent = GitlabIdent(server: Option<string>, project: Option<string>,
                                     pipeline: Option<nat>, gitref: Option<string>)

  /** The text left for the `/`-separated part once a pipeline number or a
      git reference has been taken off. */
  function PathPart(arg: string, preferGitref: bool): (rest: string)
    ensures IsNumeric(arg) ==> rest == arg
    ensures !IsNumeric(arg) && preferGitref ==> rest == []
    ensures !IsNumeric(arg) && !preferGitref && '=' !in arg ==> rest == arg
    ensures !IsNumeric(arg) && !preferGitref && '=' in arg ==>
              exists g :: '=' !in g && arg == rest + "=" + g
  {
    if IsNumeric(arg) then arg
    else if preferGitref then []
    else if '=' in arg then SplitLast(arg, '=').0
    else arg
  }

  /** parse_gitlab_from_arg: all digits name a pipeline of the current
      project; otherwise the text after the last `=` (or, preferring git
      references, the whole argument) is a git reference; a remaining path
      of three or more `/`-parts is server, project and, when the last part
      is numeric, a pipeline. */
  function ParseFromArg(arg: string, preferGitref: bool): (r: GitlabIdent)
    ensures IsNumeric(arg) ==> r == GitlabIdent(None, None, Some(ParseNat(arg)), None)
    ensures !IsNumeric(arg) && preferGitref ==> r == GitlabIdent(None, None, None, Some(arg))
    ensures !IsNumeric(arg) && !preferGitref ==>
              (r.gitref.Some? <==> '=' in arg) &&
              (r.gitref.Some? ==> '=' !in r.gitref.value && arg == PathPart(arg, false) + "=" + r.gitref.value)
    ensures r.server.Some? <==> |Split(PathPart(arg, preferGitref), '/')| > 2
    ensures r.server.Some? <==> r.project.Some?
    ensures r.server.Some? ==> '/' !in r.server.value && Text.StartsWith(PathPart(arg, preferGitref), r.server.value + "/")
  {
    var rest := PathPart(arg, preferGitref);
    var pipeline := if IsNumeric(arg) then Some(ParseNat(arg)) else None;
    var gitref := if IsNumeric(arg) then None
                  else if preferGitref then Some(arg)
                  else if '=' in arg then Some(SplitLast(arg, '=').1)
                  else None;
    if '/' in rest then
      var parts := Split(rest, '/');
      if |parts| > 2 then
        assert rest == parts[0] + "/" + Join(parts[1..], "/");
        var last := parts[|parts| - 1];
        if IsNumeric(last) then
          GitlabIdent(Some(parts[0]), Some(Join(parts[1..|parts| - 1], "/")), Some(ParseNat(last)), gitref)
        else
          GitlabIdent(Some(parts[0]), Some(Join(parts[1..], "/")), pipeline, gitref)
      else GitlabIdent(None, None, pipeline, gitref)
    else
      assert Split(rest, '/') == [rest];
      GitlabIdent(None, None, pipeline, gitref)
  }

  /** A text with a character that is not a digit is not numeric. */
  lemma NotNumeric(s: string, i: nat)
    requires i < |s| && !IsDigit(s[i])
    ensures !IsNumeric(s)
  {
  }

  /** A path of three or more parts whose last part is numeric: the first
      part is the server, the middle ones the project, the last the
      pipeline. */
  lemma ParseLongPathPipeline(arg: string, parts: seq<string>)
    requires !IsNumeric(arg) && '/' in PathPart(arg, false) && '=' !in arg
    requires Split(PathPart(arg, false), '/') == parts && |parts| > 2
    requires IsNumeric(parts[|parts| - 1])
    ensures ParseFromArg(arg, false)
            == GitlabIdent(Some(parts[0]), Some(Join(parts[1..|parts| - 1], "/")), Some(ParseNat(parts[|parts| - 1])), None)
  {
  }

  /** A path of three or more parts whose last part is not numeric: the
      first part is the server, the others the project. */
  lemma ParseLongPathRef(arg: string, parts: seq<string>)
    requires !IsNumeric(arg) && '/' in PathPart(arg, false) && '=' in arg
    requires Split(PathPart(arg, false), '/') == parts && |parts| > 2
    requires !IsNumeric(parts[|parts| - 1])
    ensures ParseFromArg(arg, false)
            == GitlabIdent(Some(parts[0]), Some(Join(parts[1..], "/")), None, Some(SplitLast(arg, '=').1))
  {
  }

  /** `server/group/project/1234` names pipeline 1234 of `group/project`
      on `server`. */
  lemma PipelinePathRoundTrip(server: string, groups: seq<string>, id: nat)
    requires groups != []
    requires '/' !in server && '=' !in server
    requires forall k :: 0 <= k < |groups| ==> '/' !in groups[k] && '=' !in groups[k]
    ensures ParseFromArg(server + "/" + Join(groups, "/") + "/" + NatToString(id), false)
            == GitlabIdent(Some(server), Some(Join(groups, "/")), Some(id), None)
  {
    var num := NatToString(id);
    var parts := [server] + groups + [num];
    var arg := server + "/" + Join(groups, "/") + "/" + num;
    JoinSnoc(groups, num);
    assert arg == Join(parts, "/") by {
      assert parts[1..] == groups + [num];
    }
    assert forall k :: 0 <= k < |num| ==> IsDigit(num[k]);
    forall k | 0 <= k < |parts|
      ensures '/' !in parts[k] && '=' !in parts[k]
    {
      if k == |parts| - 1 {
        assert parts[k] == num;
        assert forall j :: 0 <= j < |num| ==> num[j] != '/' && num[j] != '=';
      }
    }
    JoinExcludes(parts, "/", '=');
    SplitJoin(parts, '/');
    assert arg[|server|] == '/';
    NotNumeric(arg, |server|);
    ParseNatToString(id);
    assert parts[1..|parts| - 1] == groups;
    assert PathPart(arg, false) == arg;
    ParseLongPathPipeline(arg, parts);
  }

  /** `server/group/project=ref` names the reference `ref` of
      `group/project` on `server`, when the project has at least two parts
      and its last part is not a number. */
  lemma GitrefPathRoundTrip(server: string, groups: seq<string>, gitref: string)
    requires |groups| >= 2 && !IsNumeric(groups[|groups| - 1])
    requires '/' !in server && forall k :: 0 <= k < |groups| ==> '/' !in groups[k]
    requires '=' !in gitref
    ensures ParseFromArg(server + "/" + Join(groups, "/") + "=" + gitref, false)
            == GitlabIdent(Some(server), Some(Join(groups, "/")), None, Some(gitref))
  {
    var parts := [server] + groups;
    var path := Join(parts, "/");
    assert path == server + "/" + Join(groups, "/") by {
      assert parts[1..] == groups;
    }
    var arg := path + "=" + gitref;
    assert arg[|path|] == '=';
    SplitLastJoin(path, '=', gitref);
    assert arg[|server|] == '/' && path[|server|] == '/';
    NotNumeric(arg, |server|);
    SplitJoin(parts, '/');
    assert parts[|parts| - 1] == groups[|groups| - 1];
    assert PathPart(arg, false) == path;
    ParseLongPathRef(arg, parts);
  }

  /** With a path of only two parts, as in `group/project=ref`, neither
      server nor project is set. */
  lemma TwoPartPath(group: string, project: string, gitref: string)
    requires '/' !in group && '/' !in project && '=' !in gitref
    ensures var r := ParseFromArg(group + "/" + project + "=" + gitref, false);
            r.server == None && r.project == None && r.gitref == Some(gitref)
  {
    var path := group + "/" + project;
    var arg := path + "=" + gitref;
    assert arg[|path|] == '=';
    SplitLastJoin(path, '=', gitref);
    assert arg[|group|] == '/';
    NotNumeric(arg, |group|);
    assert path == Join([group, project], "/");
    SplitJoin([group, project], '/');
  }

  /** `=ref` names only a git reference. */
  lemma GitrefOnly(gitref: string)
    requires '=' !in gitref
    ensures ParseFromArg("=" + gitref, false) == GitlabIdent(None, None, None, Some(gitref))
  {
    SplitLastJoin([], '=', gitref);
    NotNumeric("=" + gitref, 0);
  }

  /** Joining one more piece puts a separator before it. */
  lemma {:induction false} JoinSnoc(parts: seq<string>, x: string)
    requires parts != []
    ensures Join(parts + [x], "/") == Join(parts, "/") + "/" + x
  {
    if |parts| > 1 {
      assert (parts + [x])[1..] == parts[1..] + [x];
      JoinSnoc(parts[1..], x);
    }
  }

  // ---------------------------------------------------------------------
  // GitlabIdent.__str__

  /** Python truthiness of the optional parts. */
  predicate Given(s: Option<string>) {
    s.Some? && s.value != []
  }

  predicate GivenNumber(n: Option<nat>) {
    n.Some? && n.value != 0
  }

  /** The `name=value` items of the description, in order: server,
      project, then the git reference in preference to the pipeline id. */
  function Attribs(ident: GitlabIdent): (r: seq<string>)
    ensures |r| == (if Given(ident.server) then 1 else 0) + (if Given(ident.project) then 1 else 0)
                   + (if Given(ident.gitref) || GivenNumber(ident.pipeline) then 1 else 0)
    ensures Given(ident.server) ==> r[0] == "server=" + ident.server.value
    ensures Given(ident.gitref) ==> r[|r| - 1] == "git_ref=" + ident.gitref.value
    ensures !Given(ident.gitref) && GivenNumber(ident.pipeline) ==>
              r[|r| - 1] == "id=" + NatToString(ident.pipeline.value)
  {
    var server := if Given(ident.server) then ["server=" + ident.server.value] else [];
    var project := if Given(ident.project) then ["project=" + ident.project.value] else [];
    var last := if Given(ident.gitref) then ["git_ref=" + ident.gitref.value]
                else if GivenNumber(ident.pipeline) then ["id=" + NatToString(ident.pipeline.value)]
                else [];
    server + project + last
  }

  /** GitlabIdent.__str__. */
  function Describe(ident: GitlabIdent): (s: string)
    ensures StartsWith(s, "Pipeline ")
  {
    "Pipeline " + Join(Attribs(ident), ", ")
  }

  /** A pipeline named by a full path describes itself by server, project
      and id. */
  lemma DescribePipelinePath(server: string, groups: seq<string>, id: nat)
    requires groups != [] && groups[0] != [] && server != [] && id != 0
    requires '/' !in server && '=' !in server
    requires forall k :: 0 <= k < |groups| ==> '/' !in groups[k] && '=' !in groups[k]
    ensures Describe(ParseFromArg(server + "/" + Join(groups, "/") + "/" + NatToString(id), false))
            == "Pipeline server=" + server + ", project=" + Join(groups, "/") + ", id=" + NatToString(id)
  {
    PipelinePathRoundTrip(server, groups, id);
    var project := Join(groups, "/");
    if |groups| > 1 {
      assert project == groups[0] + "/" + Join(groups[1..], "/");
    }
    DescribeFull(server, project, id);
  }

  /** An identity with server, project and pipeline id lists all three. */
  lemma DescribeFull(server: string, project: string, id: nat)
    requires server != [] && project != [] && id != 0
    ensures Describe(GitlabIdent(Some(server), Some(project), Some(id), None))
            == "Pipeline server=" + server + ", project=" + project + ", id=" + NatToString(id)
  {
    var ident := GitlabIdent(Some(server), Some(project), Some(id), None);
    var items := ["server=" + server, "project=" + project, "id=" + NatToString(id)];
    assert Attribs(ident) == items;
    assert items[1..][1..] == [items[2]];
    assert Join(items[1..], ", ") == items[1] + ", " + items[2];
    assert Join(items, ", ") == items[0] + ", " + Join(items[1..], ", ");
  }
}
