/** Resolution and checking of a loaded `.gitlab-ci.yml` object graph: the
    job list, stage list and job lookup, the unsupported-keyword scan, the
    stage/needs/artifacts validation with its version-dependent strict mode,
    `include` processing and the `extends` fixpoint. */
module ConfigLoader {
  import opened Wrappers
  import opened Text
  import opened Yaml

  /** The errors the loader raises. The first five are ConfigLoaderError,
      ExtendsMissing and AlreadyIncluded are BadSyntaxError, Unsupported is
      FeatureNotSupportedError, NotAJob is the AssertionError of get_job and
      NeedNotAName is that assertion failing for a need that names a job by a
      value other than a string. */
  datatype ConfigError =
    | StageMissing(job: string, stage: Value)
    | NeedMissing(job: string, need: Value)
    | NeedNotEarlier(job: string, needed: string)
    | PathsNotList
    | ReportsNotMap
    | ExtendsMissing(job: string, base: Value)
    | AlreadyIncluded(file: string)
    | Unsupported(feature: string)
    | NotAJob(name: string)
    | NeedNotAName(need: Value)
    | Python(error: PyError)

  /** A Python exception raised by a value of the wrong shape. */
  function Py<T>(r: Result<T, PyError>): (q: Result<T, ConfigError>)
    ensures r.Ok? <==> q.Ok?
    ensures r.Ok? ==> q.value == r.value
    ensures r.Err? ==> q.error == Python(r.error)
  {
    match r
    case Ok(v) => Ok(v)
    case Err(e) => Err(Python(e))
  }

  // ---------------------------------------------------------------------
  // get_stages, get_jobs, get_job

  const DEFAULT_STAGES: seq<string> := [".pre", "build", "test", "deploy", ".post"]

  function StrList(xs: seq<string>): (v: Value)
    ensures v.List? && |v.items| == |xs|
    ensures forall i :: 0 <= i < |xs| ==> v.items[i] == Str(xs[i])
  {
    List(seq(|xs|, i requires 0 <= i < |xs| => Str(xs[i])))
  }

  /** The `stages` entry, or the five default stages when there is none. */
  function GetStages(config: Dict): (stages: Value)
    ensures "stages" in Keys(config) ==> Some(stages) == Get(config, "stages")
    ensures "stages" !in Keys(config) ==> stages == StrList(DEFAULT_STAGES)
  {
    GetOr(config, "stages", StrList(DEFAULT_STAGES))
  }

  /** A top-level entry is a job when its key is not reserved and its value
      is a mapping. */
  predicate IsJob(config: Dict, reserved: set<string>, name: string) {
    name !in reserved && name in Keys(config) && Get(config, name).value.Map?
  }

  /** The names among `names` that are jobs, in the same order. */
  function JobsAmong(config: Dict, reserved: set<string>, names: seq<string>): (jobs: seq<string>)
    ensures forall n :: n in jobs <==> n in names && IsJob(config, reserved, n)
    ensures |jobs| <= |names|
  {
    if names == [] then []
    else (if IsJob(config, reserved, names[0]) then [names[0]] else [])
         + JobsAmong(config, reserved, names[1..])
  }

  function GetJobs(config: Dict, reserved: set<string>): (jobs: seq<string>)
    ensures forall n :: n in jobs <==> IsJob(config, reserved, n)
  {
    JobsAmong(config, reserved, Keys(config))
  }

  /** The jobs come out in the order their keys appear, each once. */
  lemma {:induction false} JobsAmongOrder(config: Dict, reserved: set<string>, names: seq<string>)
    requires Distinct(names)
    ensures var jobs := JobsAmong(config, reserved, names);
            Distinct(jobs) &&
            forall i, j :: 0 <= i < j < |jobs| ==> IndexIn(names, jobs[i]) < IndexIn(names, jobs[j])
  {
    if names != [] {
      var rest := JobsAmong(config, reserved, names[1..]);
      assert Distinct(names[1..]);
      JobsAmongOrder(config, reserved, names[1..]);
      var jobs := JobsAmong(config, reserved, names);
      var head := if IsJob(config, reserved, names[0]) then [names[0]] else [];
      assert jobs == head + rest;
      forall i, j | 0 <= i < j < |jobs|
        ensures jobs[i] != jobs[j] && IndexIn(names, jobs[i]) < IndexIn(names, jobs[j])
      {
        var j' := j - |head|;
        assert jobs[j] == rest[j'];
        IndexShift(names, rest[j']);
        if i >= |head| {
          IndexShift(names, rest[i - |head|]);
        }
      }
    }
  }

  lemma IndexShift(names: seq<string>, x: string)
    requires Distinct(names) && |names| > 0 && x in names[1..]
    ensures x != names[0] && IndexIn(names, x) == 1 + IndexIn(names[1..], x)
  {
    var k :| 0 <= k < |names[1..]| && names[1..][k] == x;
    assert names[k + 1] == x;
  }

  lemma GetJobsOrder(config: Dict, reserved: set<string>)
    requires WellFormed(config)
    ensures var jobs := GetJobs(config, reserved);
            Distinct(jobs) &&
            forall i, j :: 0 <= i < j < |jobs| ==>
              IndexIn(Keys(config), jobs[i]) < IndexIn(Keys(config), jobs[j])
  {
    JobsAmongOrder(config, reserved, Keys(config));
  }

  /** A job with its implied default stage: `test` when it names none. */
  function Staged(job: Dict): (s: Dict)
    ensures Get(s, "stage") == if "stage" in Keys(job) then Get(job, "stage") else Some(Str("test"))
    ensures forall k :: k != "stage" ==> Get(s, k) == Get(job, k)
    ensures Keys(s) == if "stage" in Keys(job) then Keys(job) else Keys(job) + ["stage"]
  {
    if "stage" in Keys(job) then job
    else
      SetOthers(job, "stage", Str("test"));
      Set(job, "stage", Str("test"))
  }

  /** get_job: the named job with its default stage written back into the
      configuration; any other name fails the assertion. */
  function GetJob(config: Dict, reserved: set<string>, name: string): (r: Result<(Dict, Dict), ConfigError>)
    ensures r.Ok? <==> IsJob(config, reserved, name)
    ensures r.Err? ==> r.error == NotAJob(name)
    ensures r.Ok? ==>
              var (c, job) := r.value;
              job == Staged(Get(config, name).value.entries) &&
              Get(c, name) == Some(Map(job)) &&
              Keys(c) == Keys(config) &&
              forall k :: k != name ==> Get(c, k) == Get(config, k)
  {
    if !IsJob(config, reserved, name) then Err(NotAJob(name))
    else
      var job := Get(config, name).value.entries;
      if "stage" in Keys(job) then Ok((config, job))
      else
        var s := Staged(job);
        SetOthers(config, name, Map(s));
        Ok((Set(config, name, Map(s)), s))
  }

  /** Writing the default stage changes neither which entries are jobs nor
      their order. */
  lemma GetJobKeepsJobs(config: Dict, reserved: set<string>, name: string)
    requires GetJob(config, reserved, name).Ok?
    ensures GetJobs(GetJob(config, reserved, name).value.0, reserved) == GetJobs(config, reserved)
  {
    var c := GetJob(config, reserved, name).value.0;
    SameJobsAmong(config, c, reserved, Keys(config));
  }

  lemma {:induction false} SameJobsAmong(c1: Dict, c2: Dict, reserved: set<string>, names: seq<string>)
    requires forall n :: n in names ==> (IsJob(c1, reserved, n) <==> IsJob(c2, reserved, n))
    ensures JobsAmong(c1, reserved, names) == JobsAmong(c2, reserved, names)
  {
    if names != [] {
      assert names[0] in names;
      SameJobsAmong(c1, c2, reserved, names[1..]);
    }
  }

  /** Reading a job a second time changes nothing more. */
  lemma GetJobIdempotent(config: Dict, reserved: set<string>, name: string)
    requires GetJob(config, reserved, name).Ok?
    ensures var (c, job) := GetJob(config, reserved, name).value;
            GetJob(c, reserved, name) == Ok((c, job))
  {
  }

  // ---------------------------------------------------------------------
  // check_unsupported

  /** The keywords the emulator refuses; none by default. */
  const UNSUPPORTED_KEYWORDS: seq<string> := []

  /** Entry n is a mapping that has `bad` among its keys. */
  predicate Holds(config: Dict, n: string, bad: string) {
    n in Keys(config) && Get(config, n).value.Map? && bad in Keys(Get(config, n).value.entries)
  }

  /** The first keyword of `unsupported` that is a key of a mapping-valued
      entry, walking the entries in order. */
  function FirstUnsupported(config: Dict, names: seq<string>, unsupported: seq<string>): (f: Option<string>)
    ensures f.None? <==> forall n, bad :: n in names && bad in unsupported ==> !Holds(config, n, bad)
    ensures f.Some? ==> f.value in unsupported && exists n :: n in names && Holds(config, n, f.value)
  {
    if names == [] then None
    else
      var n := names[0];
      if exists bad :: bad in unsupported && Holds(config, n, bad) then
        var i := FirstPresent(unsupported, Get(config, n).value.entries);
        assert Holds(config, n, unsupported[i]);
        Some(unsupported[i])
      else
        var f := FirstUnsupported(config, names[1..], unsupported);
        assert f.Some? ==> exists m :: m in names && Holds(config, m, f.value) by {
          if f.Some? {
            var m :| m in names[1..] && Holds(config, m, f.value);
            assert m in names;
          }
        }
        f
  }

  function FirstPresent(keywords: seq<string>, child: Dict): (i: nat)
    requires exists bad :: bad in keywords && bad in Keys(child)
    ensures i < |keywords| && keywords[i] in Keys(child)
    ensures forall k :: 0 <= k < i ==> keywords[k] !in Keys(child)
  {
    if keywords[0] in Keys(child) then 0
    else
      assert exists bad :: bad in keywords[1..] && bad in Keys(child) by {
        var bad :| bad in keywords && bad in Keys(child);
        assert bad in keywords[1..];
      }
      var i := FirstPresent(keywords[1..], child);
      assert forall k :: 1 <= k <= i ==> keywords[k] == keywords[1..][k - 1];
      1 + i
  }

  /** check_unsupported: FeatureNotSupportedError for the first listed
      keyword found as a key of a mapping entry. */
  function CheckUnsupported(config: Dict, unsupported: seq<string>): (r: Result<(), ConfigError>)
    ensures r.Ok? <==> forall n, bad :: n in Keys(config) && bad in unsupported ==> !Holds(config, n, bad)
    ensures r.Err? ==> r.error.Unsupported? && r.error.feature in unsupported
                       && exists n :: Holds(config, n, r.error.feature)
  {
    match FirstUnsupported(config, Keys(config), unsupported)
    case None => Ok(())
    case Some(bad) => Err(Unsupported(bad))
  }

  /** With the default empty keyword list every configuration passes. */
  lemma DefaultAcceptsAll(config: Dict)
    ensures CheckUnsupported(config, UNSUPPORTED_KEYWORDS) == Ok(())
  {
  }

  // ---------------------------------------------------------------------
  // strict_needs_stages

  /** The GitLab version assumed when the user configuration names none. */
  const DEFAULT_VERSION: string := "14.2"

  /** `int(s)`: whitespace around it is skipped, and an optional sign
      comes before digits that single underscores may separate. */
  function PyInt(s: string): (r: Result<int, PyError>)
    ensures IsNumeric(s) ==> r == Ok(ParseNat(s))
    ensures r.Err? ==> r.error == ValueError
  {
    if IsNumeric(s) then Ok(ParseNat(s)) else SignedInt(StripSpace(s))
  }

  /** `int()` of a text already stripped of whitespace. */
  function SignedInt(t: string): (r: Result<int, PyError>)
    ensures r.Ok? <==> Underscored(t) || (t != [] && (t[0] == '+' || t[0] == '-') && Underscored(t[1..]))
    ensures Underscored(t) ==> r == Ok(ParseNat(DropUnderscores(t)))
    ensures r.Err? ==> r.error == ValueError
  {
    if Underscored(t) then Ok(ParseNat(DropUnderscores(t)))
    else if t != [] && (t[0] == '+' || t[0] == '-') && Underscored(t[1..]) then
      var n := ParseNat(DropUnderscores(t[1..])) as int;
      Ok(if t[0] == '-' then -n else n)
    else Err(ValueError)
  }

  /** `int()` parses the text without its surrounding whitespace. */
  lemma PyIntStrips(s: string)
    ensures PyInt(s) == SignedInt(StripSpace(s))
  {
    NumericUnderscored(s);
  }

  /** `int(str(i)) == i`. */
  lemma PyIntOfString(i: int)
    ensures PyInt(IntToString(i)) == Ok(i)
  {
    ParseNatToString(if i < 0 then -i else i);
    if i < 0 {
      var d := NatToString(-i);
      var s := "-" + d;
      assert s == IntToString(i);
      NumericUnderscored(d);
      assert s[1..] == d && !Underscored(s);
      assert Stripped(s) by { assert s[|s| - 1] == d[|d| - 1]; }
      PyIntStrips(s);
    }
  }

  /** Whitespace around a stripped text does not change what `int()`
      makes of it. */
  lemma PyIntSpaces(s: string, pre: string, post: string)
    requires Stripped(s)
    requires forall k :: 0 <= k < |pre| ==> IsPySpace(pre[k])
    requires forall k :: 0 <= k < |post| ==> IsPySpace(post[k])
    ensures PyInt(pre + s + post) == PyInt(s)
  {
    StripAround(s, pre, post);
    PyIntStrips(pre + s + post);
    PyIntStrips(s);
  }

  /** An underscore between two numerals is dropped: `int("1_000") == 1000`. */
  lemma PyIntUnderscore(a: string, b: string)
    requires IsNumeric(a) && IsNumeric(b)
    ensures PyInt(a + "_" + b) == Ok(ParseNat(a + b))
  {
    JoinedUnderscored(a, b);
    PyIntStrips(a + "_" + b);
  }

  /** Leading whitespace is skipped: `int(" 2") == 2`. */
  lemma PyIntLeadingSpace()
    ensures PyInt(" 2") == Ok(2)
  {
    assert IsNumeric("2") && Stripped("2");
    assert " " + "2" + [] == " 2";
    PyIntSpaces("2", " ", []);
    assert NatToString(2) == "2";
    ParseNatToString(2);
  }

  /** The ASCII separator U+001C is not skipped: `int()` refuses a numeral
      that starts with it. */
  lemma PyIntSeparator()
    ensures PyInt("\U{1C}5") == Err(ValueError)
  {
    var s := "\U{1C}5";
    assert !IsNumeric(s) by { assert !IsDigit(s[0]); }
    assert Stripped(s);
    assert !Underscored(s) by { assert !IsDigit(s[0]); }
  }

  /** Text without surrounding whitespace or a sign is an integer only
      when its digits and underscores are well placed. */
  lemma PyIntUnsigned(s: string)
    requires Stripped(s) && s != [] && s[0] != '+' && s[0] != '-'
    ensures PyInt(s).Ok? <==> Underscored(s)
  {
    PyIntStrips(s);
  }

  /** A doubled underscore between two numerals is refused. */
  lemma PyIntDoubleUnderscore(a: string, b: string)
    requires IsNumeric(a) && IsNumeric(b)
    ensures PyInt(a + "__" + b).Err?
  {
    var s := a + "__" + b;
    assert s[0] == a[0] && IsDigit(a[0]);
    assert s[|s| - 1] == b[|b| - 1];
    PyIntUnsigned(s);
    assert s[|a|] == '_' && s[|a| + 1] == '_';
  }

  /** An underscore before the first digit is refused. */
  lemma PyIntLeadingUnderscore(d: string)
    requires IsNumeric(d)
    ensures PyInt("_" + d).Err?
  {
    var s := "_" + d;
    assert s[|s| - 1] == d[|d| - 1];
    PyIntUnsigned(s);
  }

  /** An underscore after the last digit is refused. */
  lemma PyIntTrailingUnderscore(d: string)
    requires IsNumeric(d)
    ensures PyInt(d + "_").Err?
  {
    var s := d + "_";
    assert s[0] == d[0];
    PyIntUnsigned(s);
    assert s[|s| - 1] == '_';
  }

  /** Whether a need must name a job of an earlier stage: GitLab before 14.2
      (major below 15 and minor below 2, compared separately). */
  function StrictNeedsStages(version: string): (r: Result<bool, PyError>)
    ensures '.' !in version ==> r == Ok(false)
  {
    if '.' in version then
      var (major, minor) := SplitFirst(version, '.');
      var m :- PyInt(major);
      if m < 15 then
        var n :- PyInt(minor);
        Ok(n < 2)
      else Ok(false)
    else Ok(false)
  }

  /** The first `.` of a text splits it the same way however the text was
      assembled from a dot-free head. */
  lemma SplitAtFirstDot(a: string, b: string)
    requires '.' !in a
    ensures SplitFirst(a + "." + b, '.') == (a, b)
  {
    var s := a + "." + b;
    var i := IndexOf(s, '.');
    assert s[|a|] == '.';
    assert i == |a|;
    var (x, y) := SplitFirst(s, '.');
    assert x == s[..|a|] == a;
    assert y == s[|a| + 1..] == b;
  }

  lemma NoDotInNumeral(n: nat)
    ensures '.' !in NatToString(n)
  {
  }

  /** For a version `M.m` written with plain numerals the rule is
      M < 15 and m < 2. */
  lemma StrictForNumerals(major: nat, minor: nat)
    ensures StrictNeedsStages(NatToString(major) + "." + NatToString(minor))
            == Ok(major < 15 && minor < 2)
  {
    NoDotInNumeral(major);
    SplitAtFirstDot(NatToString(major), NatToString(minor));
    ParseNatToString(major);
    ParseNatToString(minor);
  }

  /** 14.1 is strict. */
  lemma StrictFourteenOne()
    ensures StrictNeedsStages("14.1") == Ok(true)
  {
    assert "14.1" == "14" + "." + "1";
    SplitAtFirstDot("14", "1");
    assert IsNumeric("14") && ParseNat("14") == 14;
  }

  /** 14.2, the default, is not strict. */
  lemma LaxDefault()
    ensures StrictNeedsStages(DEFAULT_VERSION) == Ok(false)
  {
    assert DEFAULT_VERSION == "14" + "." + "2";
    SplitAtFirstDot("14", "2");
    assert IsNumeric("14") && ParseNat("14") == 14;
  }

  /** 13.5 is not strict: the minor number is compared on its own. */
  lemma LaxThirteenFive()
    ensures StrictNeedsStages("13.5") == Ok(false)
  {
    assert "13.5" == "13" + "." + "5";
    SplitAtFirstDot("13", "5");
    assert IsNumeric("13") && ParseNat("13") == 13;
  }

  // ---------------------------------------------------------------------
  // validate

  /** The artifacts value is a mapping whose `paths`, when present, is a
      list and whose `reports`, when present, is a mapping. */
  predicate ArtifactsShaped(a: Dict) {
    ("paths" in Keys(a) ==> Get(a, "paths").value.List?) &&
    ("reports" in Keys(a) ==> Get(a, "reports").value.Map?)
  }

  /** The artifacts checks of validate. */
  function CheckArtifacts(job: Dict): (r: Result<(), ConfigError>)
    ensures "artifacts" !in Keys(job) ==> r.Ok?
    ensures "artifacts" in Keys(job) && Get(job, "artifacts").value.Map? ==>
              (r.Ok? <==> ArtifactsShaped(Get(job, "artifacts").value.entries))
    ensures r.Err? ==> r.error == PathsNotList || r.error == ReportsNotMap || r.error.Python?
  {
    if "artifacts" !in Keys(job) then Ok(())
    else
      var a := Get(job, "artifacts").value;
      var hasPaths :- Py(In(Str("paths"), a));
      if hasPaths then
        var paths :- Py(Subscript(a, "paths"));
        if !paths.List? then Err(PathsNotList) else CheckReports(a)
      else CheckReports(a)
  }

  function CheckReports(a: Value): (r: Result<(), ConfigError>)
    ensures a.Map? ==> (r.Ok? <==> ("reports" in Keys(a.entries) ==> Get(a.entries, "reports").value.Map?))
    ensures r.Err? ==> r.error == ReportsNotMap || r.error.Python?
  {
    var hasReports :- Py(In(Str("reports"), a));
    if hasReports then
      var reports :- Py(Subscript(a, "reports"));
      if !reports.Map? then Err(ReportsNotMap) else Ok(())
    else Ok(())
  }

  /** The stage a job runs in once its default is applied. */
  function StageOf(config: Dict, name: string): Value
    requires name in Keys(config) && Get(config, name).value.Map?
  {
    Get(Staged(Get(config, name).value.entries), "stage").value
  }

  /** What one entry of `needs` must satisfy: it names a job and, in strict
      mode, that job's stage comes strictly before the needing job's. */
  predicate NeedAccepted(config: Dict, reserved: set<string>, stages: Value, version: string,
                         stage: Value, need: Value)
  {
    need.Str? && IsJob(config, reserved, need.s) &&
    StrictNeedsStages(version).Ok? &&
    (StrictNeedsStages(version).value ==>
       Index(stages, stage).Ok? && Index(stages, StageOf(config, need.s)).Ok? &&
       Index(stages, StageOf(config, need.s)).value < Index(stages, stage).value)
  }

  /** The needs checks of validate, for the job `name` whose stage is `stage`. */
  function CheckNeeds(config: Dict, reserved: set<string>, stages: Value, version: string,
                      name: string, stage: Value, needs: seq<Value>): (r: Result<(), ConfigError>)
    ensures r.Ok? <==> forall i :: 0 <= i < |needs| ==>
                         NeedAccepted(config, reserved, stages, version, stage, needs[i])
    ensures r.Err? && r.error.NeedMissing? ==>
              r.error.need in needs && !(r.error.need.Str? && IsJob(config, reserved, r.error.need.s))
    ensures r.Err? ==> r.error.NeedMissing? || r.error.NeedNotEarlier? || r.error.Python?
  {
    if needs == [] then Ok(())
    else
      var need := needs[0];
      if !(need.Str? && need.s in GetJobs(config, reserved)) then Err(NeedMissing(name, need))
      else
        var strict :- Py(StrictNeedsStages(version));
        var earlier :-
          if !strict then Ok(true)
          else
            var stageOrder :- Py(Index(stages, stage));
            var needOrder :- Py(Index(stages, StageOf(config, need.s)));
            Ok(needOrder < stageOrder);
        if !earlier then Err(NeedNotEarlier(name, need.s))
        else
          var rest := CheckNeeds(config, reserved, stages, version, name, stage, needs[1..]);
          assert forall i :: 1 <= i < |needs| ==> needs[i] == needs[1..][i - 1];
          rest
  }

  /** The checks validate makes on one visible job. */
  function CheckJob(config: Dict, reserved: set<string>, version: string, name: string): (r: Result<(), ConfigError>)
    requires IsJob(config, reserved, name)
    ensures r.Ok? ==>
              var job := Staged(Get(config, name).value.entries);
              var stages := GetStages(config);
              In(StageOf(config, name), stages) == Ok(true) &&
              Iterate(GetOr(job, "needs", List([]))).Ok? &&
              (forall need :: need in Iterate(GetOr(job, "needs", List([]))).value ==>
                 NeedAccepted(config, reserved, stages, version, StageOf(config, name), need)) &&
              CheckArtifacts(job).Ok?
    ensures r.Err? && r.error.StageMissing? ==>
              r.error == StageMissing(name, StageOf(config, name)) &&
              In(StageOf(config, name), GetStages(config)) == Ok(false)
  {
    var job := Staged(Get(config, name).value.entries);
    var stages := GetStages(config);
    var stage := Get(job, "stage").value;
    var known :- Py(In(stage, stages));
    if !known then Err(StageMissing(name, stage))
    else
      var needs :- Py(Iterate(GetOr(job, "needs", List([]))));
      var _ :- CheckNeeds(config, reserved, stages, version, name, stage, needs);
      CheckArtifacts(job)
  }

  /** The jobs of `names` that validate checks: those not starting with `.`. */
  predicate Visible(name: string) {
    !StartsWith(name, ".")
  }

  function ValidateJobs(config: Dict, reserved: set<string>, version: string, names: seq<string>): (r: Result<(), ConfigError>)
    requires forall n :: n in names ==> IsJob(config, reserved, n)
    ensures r.Ok? <==> forall n :: n in names && Visible(n) ==> CheckJob(config, reserved, version, n).Ok?
    ensures r.Err? ==> exists n :: n in names && Visible(n) && CheckJob(config, reserved, version, n) == Err(r.error)
  {
    if names == [] then Ok(())
    else
      var rest := ValidateJobs(config, reserved, version, names[1..]);
      var first := if Visible(names[0]) then CheckJob(config, reserved, version, names[0]) else Ok(());
      if first.Err? then Err(first.error)
      else
        assert rest.Err? ==> exists n :: (n in names && Visible(n) &&
                                          CheckJob(config, reserved, version, n) == Err(rest.error)) by {
          if rest.Err? {
            var n :| n in names[1..] && Visible(n) && CheckJob(config, reserved, version, n) == Err(rest.error);
            assert n in names;
          }
        }
        rest
  }

  /** validate: every visible job has a known stage, needs only jobs (of
      earlier stages in strict mode) and well-shaped artifacts; otherwise
      the error of some visible job is reported (the jobs are checked in
      order, but the contract does not say which one fails first). The
      stage defaults get_job writes along the way are those Staged
      describes. */
  function Validate(config: Dict, reserved: set<string>, version: string): (r: Result<(), ConfigError>)
    ensures r.Ok? <==> forall n :: IsJob(config, reserved, n) && Visible(n) ==> CheckJob(config, reserved, version, n).Ok?
    ensures r.Err? ==> exists n :: IsJob(config, reserved, n) && Visible(n) &&
                                   CheckJob(config, reserved, version, n) == Err(r.error)
  {
    ValidateJobs(config, reserved, version, GetJobs(config, reserved))
  }

  /** A job named after a stage the configuration does not list is rejected. */
  lemma UnknownStageRejected()
    ensures var config := [("compile", Map([("stage", Str("package"))]))];
            Validate(config, {}, DEFAULT_VERSION) == Err(StageMissing("compile", Str("package")))
  {
    var config := [("compile", Map([("stage", Str("package"))]))];
    assert Keys(config) == ["compile"];
    assert IsJob(config, {}, "compile");
    assert GetJobs(config, {}) == ["compile"];
    assert GetStages(config) == StrList(DEFAULT_STAGES);
    var job := Get(config, "compile").value.entries;
    assert Keys(job) == ["stage"];
    assert StageOf(config, "compile") == Str("package");
    assert StrList(DEFAULT_STAGES).items == [Str(".pre"), Str("build"), Str("test"), Str("deploy"), Str(".post")];
    assert In(Str("package"), GetStages(config)) == Ok(false);
    assert CheckJob(config, {}, DEFAULT_VERSION, "compile") == Err(StageMissing("compile", Str("package")));
    assert "compile"[..1] == "c";
  }

  /** Hidden jobs are not checked: the same bad stage under a `.` name passes. */
  lemma HiddenJobIgnored()
    ensures Validate([(".compile", Map([("stage", Str("package"))]))], {}, DEFAULT_VERSION) == Ok(())
  {
    var config := [(".compile", Map([("stage", Str("package"))]))];
    assert Keys(config) == [".compile"];
    assert !Visible(".compile");
  }

  // ---------------------------------------------------------------------
  // include processing

  const SLASHES: set<char> := {'/', '\\'}

  const LOCAL_ONLY: string := "We only support local includes right now"

  /** `s.lstrip(chars)`. */
  function LStrip(s: string, chars: set<char>): (r: string)
    ensures |r| <= |s| && r == s[|s| - |r|..]
    ensures forall i :: 0 <= i < |s| - |r| ==> s[i] in chars
    ensures r == [] || r[0] !in chars
  {
    if s != [] && s[0] in chars then LStrip(s[1..], chars) else s
  }

  /** The file an include entry names: a string, or the `local` entry of a
      mapping, with leading slashes and backslashes removed. */
  function IncludeName(inc: Value): (r: Result<string, ConfigError>)
    ensures inc.Str? ==> r == Ok(LStrip(inc.s, SLASHES))
    ensures inc.Map? && !Truthy(GetOr(inc.entries, "local", Null)) ==> r == Err(Unsupported(LOCAL_ONLY))
    ensures inc.Map? && Truthy(GetOr(inc.entries, "local", Null)) && GetOr(inc.entries, "local", Null).Str? ==>
              r == Ok(LStrip(GetOr(inc.entries, "local", Null).s, SLASHES))
    ensures r.Ok? ==> r.value == [] || r.value[0] !in SLASHES
  {
    match inc
    case Str(s) => Ok(LStrip(s, SLASHES))
    case Map(entries) =>
      var local := GetOr(entries, "local", Null);
      if !Truthy(local) then Err(Unsupported(LOCAL_ONLY))
      else if local.Str? then Ok(LStrip(local.s, SLASHES))
      else Err(Python(AttributeError))  // a non-string has no lstrip
    case _ => Err(Python(AttributeError))  // None.lstrip
  }

  /** do_single_include as written: the file is appended to the `include`
      list and read; a file already on the list is read again, because the
      BadSyntaxError for it is built but never raised. */
  function DoSingleInclude(baseobj: Dict, inc: Value, read: string -> Dict): (r: Result<(Dict, Value), ConfigError>)
    ensures r.Ok? ==> IncludeName(inc).Ok? && "include" in Keys(baseobj) && Get(baseobj, "include").value.List?
    ensures r.Ok? ==>
              (var name := IncludeName(inc).value;
               r.value.1 == Map(read(name)) &&
               Get(r.value.0, "include") == Some(List(Get(baseobj, "include").value.items + [Str(name)])))
    ensures r.Ok? ==> Keys(r.value.0) == Keys(baseobj)
    ensures r.Ok? ==> forall k :: k != "include" ==> Get(r.value.0, k) == Get(baseobj, k)
    ensures IncludeName(inc).Ok? && "include" in Keys(baseobj) && Get(baseobj, "include").value.List? ==> r.Ok?
  {
    var name :- IncludeName(inc);
    var included :- Py(Subscript(Map(baseobj), "include"));
    var _ :- Py(In(Str(name), included));
    if !included.List? then Err(Python(AttributeError))  // only a list has append
    else
      SetOthers(baseobj, "include", List(included.items + [Str(name)]));
      Ok((Set(baseobj, "include", List(included.items + [Str(name)])), Map(read(name))))
  }

  /** do_single_include with the duplicate check raising as intended. */
  function DoSingleIncludeOnce(baseobj: Dict, inc: Value, read: string -> Dict): (r: Result<(Dict, Value), ConfigError>)
    ensures r.Ok? ==> r == DoSingleInclude(baseobj, inc, read) &&
                      Str(IncludeName(inc).value) !in Get(baseobj, "include").value.items
    ensures DoSingleInclude(baseobj, inc, read).Ok? && Str(IncludeName(inc).value) in Get(baseobj, "include").value.items
            ==> r == Err(AlreadyIncluded(IncludeName(inc).value))
  {
    var name :- IncludeName(inc);
    var included :- Py(Subscript(Map(baseobj), "include"));
    var present :- Py(In(Str(name), included));
    if present then Err(AlreadyIncluded(name))
    else DoSingleInclude(baseobj, inc, read)
  }

  lemma StripExample()
    ensures IncludeName(Str("/a.yml")) == Ok("a.yml")
  {
    var t := "a.yml";
    assert t[0] == 'a' && 'a' !in SLASHES;
    assert LStrip(t, SLASHES) == t;
    assert "/a.yml" == ['/'] + t;
    assert "/a.yml"[1..] == t;
  }

  /** The same file included twice is read twice and listed twice. */
  lemma RepeatedIncludeAccepted(read: string -> Dict)
    ensures var base := [("include", List([Str("a.yml")]))];
            DoSingleInclude(base, Str("/a.yml"), read).Ok? &&
            Get(DoSingleInclude(base, Str("/a.yml"), read).value.0, "include")
              == Some(List([Str("a.yml"), Str("a.yml")]))
  {
    var base := [("include", List([Str("a.yml")]))];
    StripExample();
    assert Keys(base) == ["include"];
    assert DoSingleInclude(base, Str("/a.yml"), read).Ok?;
    assert [Str("a.yml")] + [Str("a.yml")] == [Str("a.yml"), Str("a.yml")];
  }

  /** With the check raising, the include list never names a file twice. */
  lemma IncludeOnceKeepsListDistinct(baseobj: Dict, inc: Value, read: string -> Dict)
    requires "include" in Keys(baseobj) && Get(baseobj, "include").value.List?
    requires Distinct(Get(baseobj, "include").value.items)
    requires DoSingleIncludeOnce(baseobj, inc, read).Ok?
    ensures Distinct(Get(DoSingleIncludeOnce(baseobj, inc, read).value.0, "include").value.items)
  {
    var items := Get(baseobj, "include").value.items;
    var x := Str(IncludeName(inc).value);
    forall i, j | 0 <= i < j < |items + [x]|
      ensures (items + [x])[i] != (items + [x])[j]
    {
      if j == |items| {
        assert items[i] in items;
      }
    }
  }

  lemma RepeatedIncludeRejected(read: string -> Dict)
    ensures DoSingleIncludeOnce([("include", List([Str("a.yml")]))], Str("/a.yml"), read)
            == Err(AlreadyIncluded("a.yml"))
  {
    var base := [("include", List([Str("a.yml")]))];
    StripExample();
    assert Keys(base) == ["include"];
    assert Subscript(Map(base), "include") == Ok(List([Str("a.yml")]));
  }

  /** Copying the entries of src, except the keys in skip, over dst: each
      copied key takes src's value, a key new to dst goes last. */
  function Overlay(dst: Dict, src: Dict, skip: set<string>): (r: Dict)
    ensures forall k :: Get(r, k) == if k in Keys(src) && k !in skip then Get(src, k) else Get(dst, k)
    ensures forall k :: k in Keys(r) <==> k in Keys(dst) || (k in Keys(src) && k !in skip)
    ensures Keys(dst) <= Keys(r)
    ensures WellFormed(dst) ==> WellFormed(r)
  {
    OverlayFrom(dst, src, Keys(src), skip)
  }

  function OverlayFrom(dst: Dict, src: Dict, ks: seq<string>, skip: set<string>): (r: Dict)
    requires forall k :: k in ks ==> k in Keys(src)
    ensures forall k :: Get(r, k) == if k in ks && k !in skip then Get(src, k) else Get(dst, k)
    ensures forall k :: k in Keys(r) <==> k in Keys(dst) || (k in ks && k !in skip)
    ensures Keys(dst) <= Keys(r)
    ensures WellFormed(dst) ==> WellFormed(r)
    decreases |ks|
  {
    if ks == [] then dst
    else
      var k := ks[0];
      var next := if k in skip then dst else Set(dst, k, Get(src, k).value);
      SetOthers(dst, k, Get(src, k).value);
      assert WellFormed(dst) ==> WellFormed(next) by {
        if WellFormed(dst) && k !in skip {
          SetWellFormed(dst, k, Get(src, k).value);
        }
      }
      OverlayFrom(next, src, ks[1..], skip)
  }

  /** Copying the entries of src over dst, as a loop over src's keys. */
  method CopyItems(dst: Dict, src: Dict, skip: set<string>) returns (r: Dict)
    ensures r == Overlay(dst, src, skip)
  {
    r := dst;
    var ks := Keys(src);
    for i := 0 to |ks|
      invariant OverlayFrom(r, src, ks[i..], skip) == Overlay(dst, src, skip)
    {
      assert ks[i..][1..] == ks[i + 1..];
      if ks[i] !in skip {
        r := Set(r, ks[i], Get(src, ks[i]).value);
      }
    }
  }

  /** The value k ends up with when the parts are copied in order over a
      mapping where k is `fallback`: the last part holding k decides. */
  function LastGet(parts: seq<Dict>, k: string, fallback: Option<Value>): Option<Value>
    decreases |parts|
  {
    if parts == [] then fallback
    else LastGet(parts[1..], k, if k in Keys(parts[0]) then Get(parts[0], k) else fallback)
  }

  lemma {:induction false} LastGetSnoc(parts: seq<Dict>, last: Dict, k: string, fallback: Option<Value>)
    ensures LastGet(parts + [last], k, fallback)
            == if k in Keys(last) then Get(last, k) else LastGet(parts, k, fallback)
    decreases |parts|
  {
    if parts == [] {
      assert [last][1..] == [];
    } else {
      assert (parts + [last])[1..] == parts[1..] + [last];
      LastGetSnoc(parts[1..], last, k, if k in Keys(parts[0]) then Get(parts[0], k) else fallback);
    }
  }

  /** The entries an `include` value stands for: a list's items, or the
      value itself. */
  function IncludeList(incs: Value): (l: seq<Value>)
    ensures incs.List? ==> l == incs.items
    ensures !incs.List? ==> l == [incs]
  {
    if incs.List? then incs.items else [incs]
  }

  /** The include handler: it records the include in the base object and
      returns the included file's object. */
  type Handler = (Dict, Value) -> Result<(Dict, Value), ConfigError>

  /** Processing the includes in order: each included object's entries,
      except `include`, are copied over the base object. */
  function IncludeAll(baseobj: Dict, includes: seq<Value>, handle: Handler): Result<Dict, ConfigError>
    decreases |includes|
  {
    if includes == [] then Ok(baseobj)
    else
      var next :- IncludeOne(baseobj, includes[0], handle);
      IncludeAll(next, includes[1..], handle)
  }

  /** One include: the handler's error, a TypeError for an included object
      that is not a mapping, or its entries copied over the base object. */
  function IncludeOne(baseobj: Dict, inc: Value, handle: Handler): Result<Dict, ConfigError> {
    var res :- handle(baseobj, inc);
    if !res.1.Map? then Err(Python(TypeError))
    else Ok(Overlay(res.0, res.1.entries, {"include"}))
  }

  /** The body of the include loop. */
  method IncludeStep(baseobj: Dict, inc: Value, handle: Handler) returns (r: Result<Dict, ConfigError>)
    ensures r == IncludeOne(baseobj, inc, handle)
  {
    var res := handle(baseobj, inc);
    if res.Err? {
      return Err(res.error);
    }
    var obj := res.value.1;
    if !obj.Map? {
      return Err(Python(TypeError));
    }
    var merged := CopyItems(res.value.0, obj.entries, {"include"});
    return Ok(merged);
  }

  /** do_includes: nothing for a falsy value, otherwise each entry of a list
      (or the single value) in turn. */
  method DoIncludes(baseobj: Dict, incs: Value, handle: Handler) returns (r: Result<Dict, ConfigError>)
    ensures !Truthy(incs) ==> r == Ok(baseobj)
    ensures Truthy(incs) ==> r == IncludeAll(baseobj, IncludeList(incs), handle)
  {
    if !Truthy(incs) {
      return Ok(baseobj);
    }
    var includes := IncludeList(incs);
    var b := baseobj;
    for i := 0 to |includes|
      invariant IncludeAll(baseobj, includes, handle) == IncludeAll(b, includes[i..], handle)
    {
      assert includes[i..][0] == includes[i] && includes[i..][1..] == includes[i + 1..];
      var next := IncludeStep(b, includes[i], handle);
      if next.Err? {
        assert IncludeAll(b, includes[i..], handle) == Err(next.error);
        return Err(next.error);
      }
      assert IncludeAll(b, includes[i..], handle) == IncludeAll(next.value, includes[i + 1..], handle);
      b := next.value;
    }
    assert includes[|includes|..] == [];
    return Ok(b);
  }

  /** A handler that returns `load(inc)` for the entry inc and leaves key k
      of the base object alone. */
  ghost predicate Loads(handle: Handler, load: Value -> Dict, k: string) {
    forall b, inc :: handle(b, inc).Ok? ==>
      handle(b, inc).value.1 == Map(load(inc)) && Get(handle(b, inc).value.0, k) == Get(b, k)
  }

  function Loaded(includes: seq<Value>, load: Value -> Dict): (objs: seq<Dict>)
    ensures |objs| == |includes|
    ensures forall i :: 0 <= i < |includes| ==> objs[i] == load(includes[i])
  {
    seq(|includes|, i requires 0 <= i < |includes| => load(includes[i]))
  }

  /** Later includes win: every key other than `include` ends up with the
      value of the last included object that has it, else keeps the base
      object's value. */
  lemma {:induction false} IncludesLaterWin(baseobj: Dict, includes: seq<Value>, handle: Handler,
                                            load: Value -> Dict, k: string)
    requires k != "include" && Loads(handle, load, k)
    requires IncludeAll(baseobj, includes, handle).Ok?
    ensures Get(IncludeAll(baseobj, includes, handle).value, k)
            == LastGet(Loaded(includes, load), k, Get(baseobj, k))
    decreases |includes|
  {
    if includes != [] {
      var res := handle(baseobj, includes[0]).value;
      var next := Overlay(res.0, res.1.entries, {"include"});
      assert Loaded(includes, load)[1..] == Loaded(includes[1..], load);
      IncludesLaterWin(next, includes[1..], handle, load, k);
    }
  }

  /** What do_single_include returns for an entry: the named file's object. */
  function LoadOf(read: string -> Dict): Value -> Dict {
    inc => if IncludeName(inc).Ok? then read(IncludeName(inc).value) else []
  }

  /** do_single_include is such a handler for every key but `include`, so
      with it do_includes lets later files win. */
  lemma SingleIncludeLoads(read: string -> Dict, k: string)
    requires k != "include"
    ensures Loads((b, inc) => DoSingleInclude(b, inc, read), LoadOf(read), k)
  {
  }

  /** The corrected handler, which refuses a repeated file, is one too. */
  lemma SingleIncludeOnceLoads(read: string -> Dict, k: string)
    requires k != "include"
    ensures Loads((b, inc) => DoSingleIncludeOnce(b, inc, read), LoadOf(read), k)
  {
  }

  // ---------------------------------------------------------------------
  // do_extends

  /** The first statements of do_extends: without a truthy `default` entry an
      empty one is added, and a truthy top-level `image` or `services` is
      assigned back to itself and then deleted, so it disappears. */
  function PrepareDefault(alljobs: Dict): (a: Dict)
    ensures Truthy(GetOr(alljobs, "default", Null)) ==> a == alljobs
    ensures !Truthy(GetOr(alljobs, "default", Null)) ==>
              Get(a, "default") == Some(Map([])) &&
              Get(a, "image") == (if Truthy(GetOr(alljobs, "image", Null)) then None else Get(alljobs, "image")) &&
              Get(a, "services") == (if Truthy(GetOr(alljobs, "services", Null)) then None else Get(alljobs, "services"))
    ensures forall k :: k != "default" && k != "image" && k != "services" ==> Get(a, k) == Get(alljobs, k)
    ensures forall k :: k != "default" && k != "image" && k != "services" ==> (k in Keys(a) <==> k in Keys(alljobs))
    ensures WellFormed(alljobs) ==> WellFormed(a)
  {
    if Truthy(GetOr(alljobs, "default", Null)) then alljobs
    else
      var a0 := Set(alljobs, "default", Map([]));
      SetOthers(alljobs, "default", Map([]));
      var a1 := DropTruthy(a0, "image");
      var a2 := DropTruthy(a1, "services");
      assert WellFormed(alljobs) ==> WellFormed(a0) by {
        if WellFormed(alljobs) {
          SetWellFormed(alljobs, "default", Map([]));
        }
      }
      a2
  }

  /** `if d.get(k): d[k] = d.get(k); del d[k]`. */
  function DropTruthy(d: Dict, k: string): (r: Dict)
    ensures Get(r, k) == if Truthy(GetOr(d, k, Null)) then None else Get(d, k)
    ensures forall j :: j != k ==> Get(r, j) == Get(d, j) && (j in Keys(r) <==> j in Keys(d))
    ensures WellFormed(d) ==> WellFormed(r)
  {
    var v := GetOr(d, k, Null);
    if Truthy(v) then
      var d1 := Set(d, k, v);
      SetOthers(d, k, v);
      assert WellFormed(d) ==> WellFormed(Delete(d1, k)) by {
        if WellFormed(d) {
          SetWellFormed(d, k, v);
          DeleteWellFormed(d1, k);
        }
      }
      Delete(d1, k)
    else d
  }

  /** The non-reserved keys, in order. */
  function NonReserved(ks: seq<string>, reserved: set<string>): (r: seq<string>)
    ensures forall n :: n in r <==> n in ks && n !in reserved
    ensures Distinct(ks) ==> Distinct(r)
  {
    if ks == [] then []
    else
      var rest := NonReserved(ks[1..], reserved);
      assert Distinct(ks) ==> ks[0] !in ks[1..];
      (if ks[0] in reserved then [] else [ks[0]]) + rest
  }

  /** The `jobnames` of do_extends: the non-reserved keys, then `default`. */
  function ExtendNames(a: Dict, reserved: set<string>): (names: seq<string>)
    ensures forall n :: n in names <==> (n in Keys(a) && n !in reserved) || n == "default"
    ensures "default" in reserved && WellFormed(a) ==> Distinct(names)
  {
    var ns := NonReserved(Keys(a), reserved);
    assert "default" in reserved ==> "default" !in ns;
    ns + ["default"]
  }

  /** The bases a job extends: `extends` as a list, a single string, or the
      default base when absent. */
  function Bases(job: Dict): (r: Result<seq<Value>, ConfigError>)
    ensures "extends" !in Keys(job) ==> r == Ok([Str("default")])
    ensures "extends" in Keys(job) && Get(job, "extends").value.Str? ==> r == Ok([Get(job, "extends").value])
    ensures "extends" in Keys(job) && Get(job, "extends").value.List? ==> r == Ok(Get(job, "extends").value.items)
    ensures r.Err? ==> r.error == Python(TypeError)
  {
    var ext := GetOr(job, "extends", List([Str("default")]));
    if ext.Str? then Ok([ext])
    else if ext.List? then Ok(ext.items)
    else Err(Python(TypeError))
  }

  /** The first base that is not one of the job names. */
  function MissingBase(bases: seq<Value>, names: seq<string>): (m: Option<Value>)
    ensures m.None? <==> forall b :: b in bases ==> b.Str? && b.s in names
    ensures m.Some? ==> m.value in bases && !(m.value.Str? && m.value.s in names)
  {
    if bases == [] then None
    else if !(bases[0].Str? && bases[0].s in names) then Some(bases[0])
    else MissingBase(bases[1..], names)
  }

  /** A mapping under `extends` is iterated by its keys, each checked as a
      base name, before the merge fails on it: the first key that is not a
      job name. */
  function MappingMissing(job: Dict, names: seq<string>): (m: Option<Value>)
    ensures m.Some? ==> GetOr(job, "extends", Null).Map? && m.value.Str? && m.value.s !in names
  {
    var ext := GetOr(job, "extends", Null);
    if ext.Map? then MissingBase(KeyValues(ext.entries), names) else None
  }

  /** The error do_extends raises on reaching job n, if any. */
  function ExtendsError(a: Dict, names: seq<string>, n: string): (e: Option<ConfigError>)
    requires n in Keys(a) && Get(a, n).value.Map?
    ensures e.Some? ==> e.value == Python(TypeError) || e.value.ExtendsMissing?
  {
    match Bases(Get(a, n).value.entries)
    case Err(err) =>
      var keyMissing := MappingMissing(Get(a, n).value.entries, names);
      if keyMissing.Some? then Some(ExtendsMissing(n, keyMissing.value)) else Some(err)
    case Ok(bs) =>
      match MissingBase(bs, names)
      case None => None
      case Some(b) => Some(ExtendsMissing(n, b))
  }

  /** A mapping entry whose bases are all known job names. */
  predicate GoodJob(a: Dict, names: seq<string>, n: string) {
    n in Keys(a) && Get(a, n).value.Map? && ExtendsError(a, names, n).None?
  }

  function BaseNames(a: Dict, names: seq<string>, n: string): (bs: seq<string>)
    requires GoodJob(a, names, n)
    ensures forall b :: b in bs ==> b in names
    ensures |bs| == |Bases(Get(a, n).value.entries).value|
    ensures forall i :: 0 <= i < |bs| ==> Bases(Get(a, n).value.entries).value[i] == Str(bs[i])
  {
    var vs := Bases(Get(a, n).value.entries).value;
    assert forall i :: 0 <= i < |vs| ==> vs[i] in vs;
    seq(|vs|, i requires 0 <= i < |vs| => vs[i].s)
  }

  /** The configuration after its default entry is settled, with every
      non-reserved entry a mapping, ranked so that each job's bases (other
      than `default`) have a smaller rank: the `extends` graph is acyclic. */
  ghost predicate Prepared(a: Dict, reserved: set<string>, rank: map<string, nat>) {
    var names := ExtendNames(a, reserved);
    "default" in reserved && WellFormed(a) &&
    "default" in Keys(a) && Get(a, "default").value.Map? &&
    (forall n :: n in Keys(a) && n !in reserved ==> Get(a, n).value.Map?) &&
    (forall n :: n in Keys(a) && n !in reserved ==> RankedJob(a, names, rank, n))
  }

  /** A job whose bases exist is ranked above each of them but `default`. */
  ghost predicate RankedJob(a: Dict, names: seq<string>, rank: map<string, nat>, n: string) {
    GoodJob(a, names, n) ==>
      n in rank && forall b :: b in BaseNames(a, names, n) ==> b == "default" || (b in rank && rank[b] < rank[n])
  }

  /** What do_extends needs of its input to finish: a truthy `default` entry
      is a mapping, every non-reserved entry is a mapping and the bases are
      ranked as above. */
  ghost predicate ExtendsInput(alljobs: Dict, reserved: set<string>, rank: map<string, nat>) {
    WellFormed(alljobs) && "default" in reserved &&
    (Truthy(GetOr(alljobs, "default", Null)) ==> GetOr(alljobs, "default", Null).Map?) &&
    (forall n :: n in Keys(alljobs) && n !in reserved ==> Get(alljobs, n).value.Map?) &&
    Prepared(PrepareDefault(alljobs), reserved, rank)
  }

  function Depth(rank: map<string, nat>, n: string): nat {
    if n == "default" || n !in rank then 0 else rank[n] + 1
  }

  /** Folding the parts in order over acc, each copied over the result so far. */
  function MergeFrom(acc: Dict, parts: seq<Dict>): (r: Dict)
    ensures forall k :: Get(r, k) == LastGet(parts, k, Get(acc, k))
    ensures WellFormed(acc) ==> WellFormed(r)
    decreases |parts|
  {
    if parts == [] then acc else MergeFrom(Overlay(acc, parts[0], {}), parts[1..])
  }

  /** A resolved job: its resolved bases in order, then its own entries. */
  ghost function Resolved(a: Dict, reserved: set<string>, rank: map<string, nat>, n: string): Dict
    requires Prepared(a, reserved, rank)
    decreases Depth(rank, n), 1
  {
    if n == "default" then Get(a, "default").value.entries
    else if n in Keys(a) && n !in reserved && GoodJob(a, ExtendNames(a, reserved), n) then
      MergeFrom([], ResolvedParts(a, reserved, rank, n))
    else []
  }

  ghost function ResolvedParts(a: Dict, reserved: set<string>, rank: map<string, nat>, n: string): (parts: seq<Dict>)
    requires Prepared(a, reserved, rank)
    requires n != "default" && n in Keys(a) && n !in reserved && GoodJob(a, ExtendNames(a, reserved), n)
    ensures var bs := BaseNames(a, ExtendNames(a, reserved), n);
            |parts| == |bs| + 1 && parts[|bs|] == Get(a, n).value.entries &&
            forall i :: 0 <= i < |bs| ==> parts[i] == Resolved(a, reserved, rank, bs[i])
    decreases Depth(rank, n), 0
  {
    var bs := BaseNames(a, ExtendNames(a, reserved), n);
    assert forall i :: 0 <= i < |bs| ==> bs[i] in bs;
    seq(|bs|, i requires 0 <= i < |bs| => Resolved(a, reserved, rank, bs[i])) + [Get(a, n).value.entries]
  }

  /** Later keys win: a job's own entries override its bases, and among the
      bases the last one listed that has a key decides. */
  lemma ExtendsLaterWin(a: Dict, reserved: set<string>, rank: map<string, nat>, n: string, k: string)
    requires Prepared(a, reserved, rank)
    requires n != "default" && n in Keys(a) && n !in reserved && GoodJob(a, ExtendNames(a, reserved), n)
    ensures var own := Get(a, n).value.entries;
            var parts := ResolvedParts(a, reserved, rank, n);
            Get(Resolved(a, reserved, rank, n), k)
              == if k in Keys(own) then Get(own, k) else LastGet(parts[..|parts| - 1], k, None)
  {
    var parts := ResolvedParts(a, reserved, rank, n);
    assert parts == parts[..|parts| - 1] + [parts[|parts| - 1]];
    LastGetSnoc(parts[..|parts| - 1], parts[|parts| - 1], k, None);
  }

  /** What holds between passes of do_extends: the resolved names are job
      names whose bases exist, each resolved entry holds its resolved job
      and every other entry is as prepared. */
  ghost predicate ExtendState(a: Dict, reserved: set<string>, rank: map<string, nat>,
                              jobs: Dict, resolved: set<string>)
  {
    Prepared(a, reserved, rank) &&
    "default" in resolved &&
    (forall n :: n in resolved ==> n in ExtendNames(a, reserved)) &&
    Keys(jobs) == Keys(a) &&
    (forall n :: n in resolved && n != "default" ==> GoodJob(a, ExtendNames(a, reserved), n)) &&
    (forall n :: n in resolved ==> Get(jobs, n) == Some(Map(Resolved(a, reserved, rank, n)))) &&
    (forall k :: k !in resolved ==> Get(jobs, k) == Get(a, k))
  }

  lemma {:induction false} DistinctCard(xs: seq<string>)
    requires Distinct(xs)
    ensures |set x | x in xs| == |xs|
  {
    if xs != [] {
      assert Distinct(xs[1..]);
      DistinctCard(xs[1..]);
      assert (set x | x in xs) == (set x | x in xs[1..]) + {xs[0]};
    }
  }

  lemma {:induction false} SubsetCard(u: set<string>, v: set<string>)
    requires u <= v
    ensures |u| <= |v|
    ensures |u| == |v| ==> u == v
    decreases |v|
  {
    if u != {} {
      var x :| x in u;
      SubsetCard(u - {x}, v - {x});
      assert |u - {x}| == |u| - 1 && |v - {x}| == |v| - 1;
      assert u == (u - {x}) + {x} && v == (v - {x}) + {x};
    } else if v != {} {
      var x :| x in v;
      assert |v - {x}| == |v| - 1;
    }
  }

  /** While fewer names are resolved than there are names, some name is left. */
  lemma Remaining(names: seq<string>, resolved: set<string>)
    requires Distinct(names) && |resolved| < |names|
    requires forall n :: n in resolved ==> n in names
    ensures exists n :: n in names && n !in resolved
  {
    var all := set n | n in names;
    DistinctCard(names);
    assert resolved <= all;
    SubsetCard(resolved, all);
    assert resolved != all;
    var x :| x in all && x !in resolved;
  }

  lemma {:induction false} MinRank(u: set<string>, rank: map<string, nat>) returns (t: string)
    requires u != {} && forall x :: x in u ==> x in rank
    ensures t in u && forall x :: x in u ==> rank[t] <= rank[x]
    decreases |u|
  {
    var x :| x in u;
    if u == {x} {
      t := x;
    } else {
      var m := MinRank(u - {x}, rank);
      t := if rank[x] <= rank[m] then x else m;
    }
  }

  /** A job name other than `default` is a mapping entry; when its bases
      exist, it and they are ranked. */
  lemma PreparedJob(a: Dict, reserved: set<string>, rank: map<string, nat>, n: string)
    requires Prepared(a, reserved, rank) && n in ExtendNames(a, reserved) && n != "default"
    ensures n in Keys(a) && n !in reserved && Get(a, n).value.Map?
    ensures GoodJob(a, ExtendNames(a, reserved), n) ==>
              n in rank &&
              forall b :: b in BaseNames(a, ExtendNames(a, reserved), n) ==> b == "default" || (b in rank && rank[b] < rank[n])
  {
  }

  /** The name a pass is bound to settle: an unresolved job whose bases are
      wrong, else an unresolved job of least rank. */
  lemma PickTarget(a: Dict, reserved: set<string>, rank: map<string, nat>, resolved: set<string>)
    returns (t: string)
    requires Prepared(a, reserved, rank) && "default" in resolved
    requires exists n :: n in ExtendNames(a, reserved) && n !in resolved
    ensures t in ExtendNames(a, reserved) && t !in resolved && t != "default"
    ensures GoodJob(a, ExtendNames(a, reserved), t) ==>
              t in rank &&
              forall x :: x in ExtendNames(a, reserved) && x !in resolved ==> x in rank && rank[t] <= rank[x]
  {
    var names := ExtendNames(a, reserved);
    if exists n :: n in names && n !in resolved && !GoodJob(a, names, n) {
      t :| t in names && t !in resolved && !GoodJob(a, names, t);
    } else {
      var u := set n | n in names && n !in resolved;
      var w :| w in names && w !in resolved;
      assert w in u;
      forall x | x in u
        ensures x in rank
      {
        assert GoodJob(a, names, x);
        PreparedJob(a, reserved, rank, x);
      }
      t := MinRank(u, rank);
    }
  }

  /** Every base of a least-ranked unresolved job is already resolved. */
  lemma TargetReady(a: Dict, reserved: set<string>, rank: map<string, nat>,
                    resolved0: set<string>, resolved: set<string>, t: string)
    requires Prepared(a, reserved, rank)
    requires t in ExtendNames(a, reserved) && t != "default" && GoodJob(a, ExtendNames(a, reserved), t)
    requires forall x :: x in ExtendNames(a, reserved) && x !in resolved0 ==> x in rank && rank[t] <= rank[x]
    requires resolved0 <= resolved && "default" in resolved
    ensures forall b :: b in BaseNames(a, ExtendNames(a, reserved), t) ==> b in resolved
  {
    PreparedJob(a, reserved, rank, t);
  }

  /** The extends work for one job: its bases in order, then the job itself,
      each copied over the result so far. */
  method MergeJob(a: Dict, reserved: set<string>, ghost rank: map<string, nat>, names: seq<string>,
                  jobs: Dict, ghost resolved: set<string>, name: string) returns (merged: Dict)
    requires names == ExtendNames(a, reserved)
    requires ExtendState(a, reserved, rank, jobs, resolved)
    requires name in names && name !in resolved && GoodJob(a, names, name)
    requires forall b :: b in BaseNames(a, names, name) ==> b in resolved
    ensures merged == Resolved(a, reserved, rank, name)
  {
    ghost var parts := ResolvedParts(a, reserved, rank, name);
    var full := BaseNames(a, names, name) + [name];
    merged := [];
    for i := 0 to |full|
      invariant MergeFrom(merged, parts[i..]) == MergeFrom([], parts)
    {
      assert parts[i..][1..] == parts[i + 1..];
      assert i < |full| - 1 ==> full[i] in BaseNames(a, names, name);
      var src := Get(jobs, full[i]).value;
      assert src == Map(parts[i]);
      merged := CopyItems(merged, src.entries, {});
    }
  }

  /** Storing a job's resolved form and marking it resolved keeps the state. */
  lemma ResolveStep(a: Dict, reserved: set<string>, rank: map<string, nat>,
                    jobs: Dict, resolved: set<string>, name: string)
    requires ExtendState(a, reserved, rank, jobs, resolved)
    requires name in ExtendNames(a, reserved) && name !in resolved && GoodJob(a, ExtendNames(a, reserved), name)
    ensures ExtendState(a, reserved, rank, Set(jobs, name, Map(Resolved(a, reserved, rank, name))), resolved + {name})
  {
    var v := Map(Resolved(a, reserved, rank, name));
    var jobs' := Set(jobs, name, v);
    SetOthers(jobs, name, v);
    assert name in Keys(jobs);
    assert Keys(jobs') == Keys(a);
    forall n | n in resolved + {name}
      ensures Get(jobs', n) == Some(Map(Resolved(a, reserved, rank, n)))
    {
      if n != name {
        assert Get(jobs', n) == Get(jobs, n);
      }
    }
    forall k | k !in resolved + {name}
      ensures Get(jobs', k) == Get(a, k)
    {
      assert Get(jobs', k) == Get(jobs, k);
    }
  }

  /** The body of the `for name in jobnames` loop for an unresolved name:
      an error for a bad `extends`, otherwise the job is resolved when all
      its bases are. */
  method VisitJob(a: Dict, reserved: set<string>, ghost rank: map<string, nat>, names: seq<string>,
                  jobs: Dict, resolved: set<string>, name: string)
    returns (r: Result<(Dict, set<string>), ConfigError>)
    requires names == ExtendNames(a, reserved)
    requires ExtendState(a, reserved, rank, jobs, resolved)
    requires name in names && name !in resolved
    ensures name != "default" && name in Keys(a) && Get(a, name).value.Map?
    ensures r.Err? <==> !GoodJob(a, names, name)
    ensures r.Err? ==> ExtendsError(a, names, name) == Some(r.error)
    ensures r.Ok? ==> ExtendState(a, reserved, rank, r.value.0, r.value.1)
    ensures r.Ok? ==> r.value.1 == resolved || r.value.1 == resolved + {name}
    ensures r.Ok? && (forall b :: b in BaseNames(a, names, name) ==> b in resolved) ==> name in r.value.1
  {
    PreparedJob(a, reserved, rank, name);
    var job := Get(jobs, name).value;
    if job.Map? {
      var bases := Bases(job.entries);
      if bases.Err? {
        var keyMissing := MappingMissing(job.entries, names);
        if keyMissing.Some? {
          return Err(ExtendsMissing(name, keyMissing.value));
        }
        return Err(bases.error);
      }
      var missing := MissingBase(bases.value, names);
      if missing.Some? {
        return Err(ExtendsMissing(name, missing.value));
      }
      ghost var bs := BaseNames(a, names, name);
      assert forall j :: 0 <= j < |bs| ==> bases.value[j] == Str(bs[j]);
      if forall b :: b in bases.value ==> b.s in resolved {
        assert forall b :: b in bs ==> b in resolved by {
          forall b | b in bs
            ensures b in resolved
          {
            var j :| 0 <= j < |bs| && bs[j] == b;
            assert bases.value[j] in bases.value;
          }
        }
        var merged := MergeJob(a, reserved, rank, names, jobs, resolved, name);
        ResolveStep(a, reserved, rank, jobs, resolved, name);
        return Ok((Set(jobs, name, Map(merged)), resolved + {name}));
      } else {
        assert exists j :: 0 <= j < |bs| && bs[j] !in resolved by {
          var b :| b in bases.value && b.s !in resolved;
          var j :| 0 <= j < |bases.value| && bases.value[j] == b;
          assert bs[j] == b.s;
        }
        return Ok((jobs, resolved));
      }
    }
    return Ok((jobs, resolved));
  }

  /** One sweep of the `for name in jobnames` loop. */
  method ExtendPass(a: Dict, reserved: set<string>, ghost rank: map<string, nat>, names: seq<string>,
                    jobs0: Dict, resolved0: set<string>)
    returns (r: Result<(Dict, set<string>), ConfigError>)
    requires names == ExtendNames(a, reserved)
    requires ExtendState(a, reserved, rank, jobs0, resolved0)
    requires exists n :: n in names && n !in resolved0
    ensures r.Ok? ==> ExtendState(a, reserved, rank, r.value.0, r.value.1) && resolved0 < r.value.1
    ensures r.Err? ==> exists n :: n in names && n != "default" && n in Keys(a) && Get(a, n).value.Map?
                                   && ExtendsError(a, names, n) == Some(r.error)
  {
    ghost var target := PickTarget(a, reserved, rank, resolved0);
    ghost var ti := IndexIn(names, target);
    var jobs, resolved := jobs0, resolved0;
    for i := 0 to |names|
      invariant ExtendState(a, reserved, rank, jobs, resolved)
      invariant resolved0 <= resolved
      invariant target in resolved <==> i > ti
    {
      var name := names[i];
      assert i != ti ==> name != target;
      if name !in resolved {
        var v := VisitJob(a, reserved, rank, names, jobs, resolved, name);
        if v.Err? {
          return Err(v.error);
        }
        if name == target {
          TargetReady(a, reserved, rank, resolved0, resolved, target);
        }
        jobs, resolved := v.value.0, v.value.1;
      }
    }
    return Ok((jobs, resolved));
  }

  /** Each pass resolves another name, so fewer remain. */
  lemma Progress(all: set<string>, before: set<string>, after: set<string>)
    requires before < after && after <= all
    ensures |all - after| < |all - before|
  {
    var x :| x in after && x !in before;
    SubsetCard(all - after, all - before);
    assert x in all - before;
  }

  /** Once as many names are resolved as there are, every name is resolved
      and the configuration holds the resolved jobs. */
  lemma ExtendsDone(a: Dict, reserved: set<string>, rank: map<string, nat>, jobs: Dict, resolved: set<string>)
    requires ExtendState(a, reserved, rank, jobs, resolved)
    requires |resolved| >= |ExtendNames(a, reserved)|
    ensures forall n :: n in ExtendNames(a, reserved) && n != "default" ==> GoodJob(a, ExtendNames(a, reserved), n)
    ensures Keys(jobs) == Keys(a)
    ensures forall n :: n in ExtendNames(a, reserved) ==> Get(jobs, n) == Some(Map(Resolved(a, reserved, rank, n)))
    ensures forall k :: k !in ExtendNames(a, reserved) ==> Get(jobs, k) == Get(a, k)
  {
    var names := ExtendNames(a, reserved);
    var all := set n | n in names;
    DistinctCard(names);
    SubsetCard(resolved, all);
    assert resolved == all;
  }

  /** Before the first pass only `default` counts as resolved. */
  lemma ExtendInit(a: Dict, reserved: set<string>, rank: map<string, nat>)
    requires Prepared(a, reserved, rank)
    ensures ExtendState(a, reserved, rank, a, {"default"})
  {
  }

  /** do_extends: every job, and `default`, is replaced by its resolved form;
      a job extending a missing name, or with an `extends` that is neither a
      string nor a list, is an error. */
  method DoExtends(alljobs: Dict, reserved: set<string>, ghost rank: map<string, nat>)
    returns (r: Result<Dict, ConfigError>)
    requires ExtendsInput(alljobs, reserved, rank)
    ensures var a := PrepareDefault(alljobs);
            var names := ExtendNames(a, reserved);
            r.Ok? <==> forall n :: n in names && n != "default" ==> GoodJob(a, names, n)
    ensures var a := PrepareDefault(alljobs);
            var names := ExtendNames(a, reserved);
            r.Err? ==> exists n :: n in names && n != "default" && n in Keys(a) && Get(a, n).value.Map?
                                   && ExtendsError(a, names, n) == Some(r.error)
    ensures var a := PrepareDefault(alljobs);
            var names := ExtendNames(a, reserved);
            r.Ok? ==> Keys(r.value) == Keys(a) &&
                      (forall n :: n in names ==> Get(r.value, n) == Some(Map(Resolved(a, reserved, rank, n)))) &&
                      (forall k :: k !in names ==> Get(r.value, k) == Get(a, k))
  {
    var a := PrepareDefault(alljobs);
    var names := ExtendNames(a, reserved);
    var jobs := a;
    var resolved: set<string> := {"default"};
    ghost var all := set n | n in names;
    ExtendInit(a, reserved, rank);
    while |resolved| < |names|
      invariant ExtendState(a, reserved, rank, jobs, resolved)
      decreases |all - resolved|
    {
      Remaining(names, resolved);
      var res := ExtendPass(a, reserved, rank, names, jobs, resolved);
      if res.Err? {
        return Err(res.error);
      }
      Progress(all, resolved, res.value.1);
      jobs, resolved := res.value.0, res.value.1;
    }
    ExtendsDone(a, reserved, rank, jobs, resolved);
    return Ok(jobs);
  }

  /** A job without `extends` is based on `default` alone: it inherits each
      key of the default entry that it does not set itself. */
  lemma DefaultBaseInherited(a: Dict, reserved: set<string>, rank: map<string, nat>, n: string, k: string)
    requires Prepared(a, reserved, rank)
    requires n != "default" && n in Keys(a) && n !in reserved
    requires "extends" !in Keys(Get(a, n).value.entries)
    ensures GoodJob(a, ExtendNames(a, reserved), n)
    ensures var own := Get(a, n).value.entries;
            Get(Resolved(a, reserved, rank, n), k)
              == if k in Keys(own) then Get(own, k) else Get(Get(a, "default").value.entries, k)
  {
    var names := ExtendNames(a, reserved);
    assert Bases(Get(a, n).value.entries) == Ok([Str("default")]);
    assert MissingBase([Str("default")], names) == None;
    var parts := ResolvedParts(a, reserved, rank, n);
    assert BaseNames(a, names, n) == ["default"];
    assert parts[..1] == [Get(a, "default").value.entries];
    ExtendsLaterWin(a, reserved, rank, n, k);
  }

  /** Extending a name that is not a job is reported against the job. */
  lemma MissingBaseRejected(reserved: set<string>)
    requires "default" in reserved
    ensures var a := [("default", Map([])), ("job2", Map([("extends", Str("thing"))]))];
            ExtendsError(a, ExtendNames(a, reserved), "job2") == Some(ExtendsMissing("job2", Str("thing")))
  {
    var a := [("default", Map([])), ("job2", Map([("extends", Str("thing"))]))];
    assert Keys(a) == ["default", "job2"];
    assert "thing" !in ExtendNames(a, reserved);
    var job := Get(a, "job2").value.entries;
    assert Keys(job) == ["extends"];
  }

  /** A mapping under `extends` always fails: with BadSyntaxError naming a
      key that is not a job, or with TypeError when every key is a job. */
  lemma MappingExtendsRejected(a: Dict, names: seq<string>, n: string)
    requires n in Keys(a) && Get(a, n).value.Map?
    requires GetOr(Get(a, n).value.entries, "extends", Null).Map?
    ensures var ext := GetOr(Get(a, n).value.entries, "extends", Null);
            var e := ExtendsError(a, names, n);
            e.Some? &&
            (e == Some(Python(TypeError)) <==> forall k :: k in Keys(ext.entries) ==> k in names) &&
            (e.value.ExtendsMissing? ==> e.value.job == n && e.value.base.Str? &&
                                         e.value.base.s in Keys(ext.entries) && e.value.base.s !in names)
  {
    var ext := GetOr(Get(a, n).value.entries, "extends", Null);
    var ks := KeyValues(ext.entries);
    var m := MissingBase(ks, names);
    assert forall k :: k in Keys(ext.entries) <==> Str(k) in ks by {
      forall k
        ensures k in Keys(ext.entries) <==> Str(k) in ks
      {
        if k in Keys(ext.entries) {
          var i :| 0 <= i < |ext.entries| && ext.entries[i].0 == k;
          assert ks[i] == Str(k);
        }
        if Str(k) in ks {
          var i :| 0 <= i < |ks| && ks[i] == Str(k);
          assert Keys(ext.entries)[i] == k;
        }
      }
    }
  }

  // ---------------------------------------------------------------------
  // Loader: which file each job came from

  /** A file name with Windows separators turned into `/`. */
  function UnixPath(f: string): (p: string)
    ensures |p| == |f| && '\\' !in p
    ensures forall i :: 0 <= i < |f| && f[i] != '\\' ==> p[i] == f[i]
  {
    ReplaceChar(f, '\\', '/');
    ReplaceAll(f, "\\", "/")
  }

  /** Converting a path already in unix form changes nothing. */
  lemma UnixPathIdempotent(f: string)
    ensures UnixPath(UnixPath(f)) == UnixPath(f)
  {
    var p := UnixPath(f);
    ContainsChar(p, '\\');
    ReplaceAbsent(p, "\\", "/");
  }

  /** The file names recorded so far, in the order first recorded. */
  function SourceFiles(sources: seq<(string, seq<string>)>): (fs: seq<string>)
    ensures |fs| == |sources|
    ensures forall i :: 0 <= i < |sources| ==> fs[i] == sources[i].0
  {
    if sources == [] then [] else [sources[0].0] + SourceFiles(sources[1..])
  }

  /** The keys recorded for file f. */
  function SourceOf(sources: seq<(string, seq<string>)>, f: string): (r: Option<seq<string>>)
    ensures r.Some? <==> f in SourceFiles(sources)
  {
    if sources == [] then None
    else if sources[0].0 == f then Some(sources[0].1)
    else SourceOf(sources[1..], f)
  }

  /** `self._job_sources[f] = keys`: an existing file keeps its place. */
  function SetSource(sources: seq<(string, seq<string>)>, f: string, keys: seq<string>)
    : (r: seq<(string, seq<string>)>)
    ensures SourceOf(r, f) == Some(keys)
    ensures forall g :: g != f ==> SourceOf(r, g) == SourceOf(sources, g)
  {
    if sources == [] then [(f, keys)]
    else if sources[0].0 == f then [(f, keys)] + sources[1..]
    else
      var r := SetSource(sources[1..], f, keys);
      assert ([sources[0]] + r)[1..] == r;
      [sources[0]] + r
  }

  /** The position of file f's entry, or the length when it has none. */
  function SourcePos(sources: seq<(string, seq<string>)>, f: string): (k: nat)
    ensures k <= |sources| && (k < |sources| <==> f in SourceFiles(sources))
    ensures k < |sources| ==> sources[k].0 == f
  {
    if sources == [] then 0
    else if sources[0].0 == f then 0
    else 1 + SourcePos(sources[1..], f)
  }

  /** Recording a file replaces its entry in place, or appends one for a
      file not recorded before. */
  lemma {:induction false} SetSourceShape(sources: seq<(string, seq<string>)>, f: string, keys: seq<string>)
    ensures var r := SetSource(sources, f, keys);
            var k := SourcePos(sources, f);
            |r| == (if k < |sources| then |sources| else |sources| + 1) &&
            forall i :: 0 <= i < |r| ==> r[i] == if i == k then (f, keys) else sources[i]
  {
    if sources != [] && sources[0].0 != f {
      SetSourceShape(sources[1..], f, keys);
      var t := SetSource(sources[1..], f, keys);
      var r := SetSource(sources, f, keys);
      assert r == [sources[0]] + t;
      forall i | 1 <= i < |r|
        ensures r[i] == if i == SourcePos(sources, f) then (f, keys) else sources[i]
      {
        assert r[i] == t[i - 1];
      }
    }
  }

  /** Recording a file adds its entry and keeps only entries already there. */
  lemma SetSourceEntries(sources: seq<(string, seq<string>)>, f: string, keys: seq<string>)
    ensures var r := SetSource(sources, f, keys);
            (f, keys) in r && forall i :: 0 <= i < |r| ==> r[i] == (f, keys) || r[i] in sources
  {
    SetSourceShape(sources, f, keys);
    var r := SetSource(sources, f, keys);
    assert r[SourcePos(sources, f)] == (f, keys);
  }

  /** The non-reserved keys of a file's result that were not there before
      reading it, in the result's order. */
  function NewKeys(ks: seq<string>, before: Dict, reserved: set<string>): (r: seq<string>)
    ensures forall x :: x in r <==> x in ks && x !in Keys(before) && x !in reserved
    ensures Distinct(ks) ==> Distinct(r)
  {
    if ks == [] then []
    else
      assert Distinct(ks) ==> ks[0] !in ks[1..];
      (if ks[0] in Keys(before) || ks[0] in reserved then [] else [ks[0]])
      + NewKeys(ks[1..], before, reserved)
  }

  /** The first recorded file that lists the job. */
  function FirstSource(sources: seq<(string, seq<string>)>, job: string): (r: Option<nat>)
    ensures r.None? <==> forall i :: 0 <= i < |sources| ==> job !in sources[i].1
    ensures r.Some? ==> r.value < |sources| && job in sources[r.value].1
                        && forall i :: 0 <= i < r.value ==> job !in sources[i].1
  {
    if sources == [] then None
    else if job in sources[0].1 then Some(0)
    else match FirstSource(sources[1..], job)
      case None => None
      case Some(i) => Some(i + 1)
  }

  class Loader {
    /** The loaded configuration. */
    var config: Dict
    /** `_job_sources`: for each file read, the top-level keys it added. */
    var jobSources: seq<(string, seq<string>)>

    constructor ()
      ensures config == [] && jobSources == []
    {
      config := [];
      jobSources := [];
    }

    /** The end of `_read`: the non-reserved keys that reading the file
        added are recorded under its name. */
    method RecordSources(relative: string, before: Dict, objdata: Dict, reserved: set<string>)
      modifies this
      ensures config == old(config)
      ensures jobSources == SetSource(old(jobSources), relative, NewKeys(Keys(objdata), before, reserved))
    {
      var newKeys := NewKeys(Keys(objdata), before, reserved);
      jobSources := SetSource(jobSources, relative, newKeys);
    }

    /** get_job_filename: the first recorded file whose keys include the
        job, in unix form, or none. */
    method GetJobFilename(jobname: string) returns (jobfile: Option<string>)
      ensures jobfile.None? <==> forall i :: 0 <= i < |jobSources| ==> jobname !in jobSources[i].1
      ensures jobfile.Some? ==> jobfile.value == UnixPath(jobSources[FirstSource(jobSources, jobname).value].0)
    {
      var i := 0;
      while i < |jobSources|
        invariant 0 <= i <= |jobSources|
        invariant forall j :: 0 <= j < i ==> jobname !in jobSources[j].1
      {
        if jobname in jobSources[i].1 {
          return Some(UnixPath(jobSources[i].0));
        }
        i := i + 1;
      }
      return None;
    }
  }

  /** A file recorded with a job's key is where that job is found, unless an
      earlier file already listed it. */
  lemma RecordedJobFound(sources: seq<(string, seq<string>)>, f: string, keys: seq<string>, job: string)
    requires job in keys
    requires forall i :: 0 <= i < |sources| ==> job !in sources[i].1
    ensures var r := SetSource(sources, f, keys);
            FirstSource(r, job).Some? && r[FirstSource(r, job).value].0 == f
  {
    var r := SetSource(sources, f, keys);
    SetSourceEntries(sources, f, keys);
    var k :| 0 <= k < |r| && r[k] == (f, keys);
    var i := FirstSource(r, job).value;
    assert r[i] !in sources;
  }

}
