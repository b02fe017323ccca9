/** Names of the docker resources the emulator creates: `gle-KIND-PID-RND`,
    and recognising such a name again to find its owner's process id. */
module Resnamer {
  import opened Wrappers
  import opened Text
  import opened Yaml
  import ConfigLoader

  /** The kind used when none, or an empty one, is given. */
  function KindOrDefault(kind: Option<string>): (k: string)
    ensures k != []
  {
    if kind.Some? && kind.value != [] then kind.value else "docker"
  }

  /** The random part: the first seven characters of the UUID text. */
  function RandomPart(uuid: string): (rnd: string)
    ensures |rnd| <= 7 && StartsWith(uuid, rnd)
    ensures |uuid| >= 7 ==> |rnd| == 7
  {
    if |uuid| <= 7 then uuid else uuid[..7]
  }

  /** generate_resource_name, with the process id and the generated UUID
      text as parameters. */
  function GenerateResourceName(kind: Option<string>, pid: nat, uuid: string): (name: string)
    ensures StartsWith(name, "gle-" + KindOrDefault(kind) + "-")
    ensures EndsWith(name, "-" + RandomPart(uuid))
  {
    var prefix := "gle-" + KindOrDefault(kind) + "-";
    var suffix := "-" + RandomPart(uuid);
    var name := prefix + NatToString(pid) + suffix;
    assert name[..|prefix|] == prefix;
    assert name[|name| - |suffix|..] == suffix;
    name
  }

  /** is_gle_resource: a name of exactly four `-`-separated parts starting
      with `gle` gives `int()` of its third part, raising ValueError when
      that is not a number; any other name, the empty one included, gives
      None. */
  function IsGleResource(name: string): (r: Result<Option<int>, PyError>)
    ensures var parts := Split(name, '-');
            (r.Ok? && r.value.Some? <==> |parts| == 4 && parts[0] == "gle" && ConfigLoader.PyInt(parts[2]).Ok?) &&
            (r.Ok? && r.value.Some? ==> r.value.value == ConfigLoader.PyInt(parts[2]).value) &&
            (r.Err? <==> |parts| == 4 && parts[0] == "gle" && ConfigLoader.PyInt(parts[2]).Err?)
    ensures name == [] ==> r == Ok(None)
    ensures r.Err? ==> r.error == ValueError
  {
    if name == [] then
      assert Split(name, '-') == [[]];
      Ok(None)
    else
      var parts := Split(name, '-');
      if |parts| == 4 && parts[0] == "gle" then
        ConfigLoader.PyInt(parts[2]).MapSome()
      else Ok(None)
  }

  /** A name of four dash-free parts led by `gle` is read through its
      third part. */
  lemma FourParts(k: string, p: string, rnd: string)
    requires '-' !in k && '-' !in p && '-' !in rnd
    ensures IsGleResource("gle-" + k + "-" + p + "-" + rnd) == ConfigLoader.PyInt(p).MapSome()
  {
    var parts := ["gle", k, p, rnd];
    Join4("gle", k, p, rnd, "-");
    assert "gle-" + k + "-" + p + "-" + rnd == "gle" + "-" + k + "-" + p + "-" + rnd;
    assert "gle"[0] != '-' && "gle"[1] != '-' && "gle"[2] != '-';
    SplitJoin(parts, '-');
  }

  /** A generated name is recognised and gives back the process id, when
      neither the kind nor the random part contains `-`. */
  lemma ResourceNameRoundTrip(kind: Option<string>, pid: nat, uuid: string)
    requires '-' !in KindOrDefault(kind) && '-' !in RandomPart(uuid)
    ensures IsGleResource(GenerateResourceName(kind, pid, uuid)) == Ok(Some(pid))
  {
    var k, num, rnd := KindOrDefault(kind), NatToString(pid), RandomPart(uuid);
    assert GenerateResourceName(kind, pid, uuid) == "gle-" + k + "-" + num + "-" + rnd;
    assert forall j :: 0 <= j < |num| ==> num[j] != '-' by {
      assert forall j :: 0 <= j < |num| ==> IsDigit(num[j]);
    }
    FourParts(k, num, rnd);
    ParseNatToString(pid);
  }

  /** A kind containing `-` makes a name of more than four parts, which is
      not recognised. */
  lemma DashedKindNotRecognised(kind: string, pid: nat, uuid: string)
    requires '-' in kind
    ensures IsGleResource(GenerateResourceName(Some(kind), pid, uuid)) == Ok(None)
  {
    var num, rnd := NatToString(pid), RandomPart(uuid);
    var name := GenerateResourceName(Some(kind), pid, uuid);
    assert name == "gle-" + kind + ("-" + num + ("-" + rnd));
    CountAppend("gle-", kind, '-');
    CountAppend("gle-" + kind, "-" + num + ("-" + rnd), '-');
    CountAppend("-" + num, "-" + rnd, '-');
    CountAppend("-", num, '-');
    CountAppend("-", rnd, '-');
    CountZero(kind, '-');
    assert Count("gle-", '-') == 1;
    SplitCount(name, '-');
  }

  /** `gle-a-b-c`: four parts, but a third part that starts with a
      letter is not a number, and `int()` raises. */
  lemma NonNumericPid(k: string, p: string, rnd: string)
    requires '-' !in k && '-' !in p && '-' !in rnd
    requires p != [] && 'a' <= p[0] <= 'z' && 'a' <= p[|p| - 1] <= 'z'
    ensures IsGleResource("gle-" + k + "-" + p + "-" + rnd) == Err(ValueError)
  {
    FourParts(k, p, rnd);
    LetterNotInt(p);
  }

  /** `int()` refuses a text that begins and ends with a letter. */
  lemma LetterNotInt(p: string)
    requires p != [] && 'a' <= p[0] <= 'z' && 'a' <= p[|p| - 1] <= 'z'
    ensures ConfigLoader.PyInt(p) == Err(ValueError)
  {
    assert Stripped(p);
    ConfigLoader.PyIntUnsigned(p);
    assert !IsDigit(p[0]);
  }
}
