/** The standalone CI runner's bookkeeping: the trace uploader that buffers
    a job's output, masks its secrets and sends it to the server in
    consecutive chunks, the environment the runner configuration adds, and
    the architecture name it reports. The HTTP requests are recorded, not
    made; whether the server accepted one is a parameter. */
module CiRunner {
  import opened Wrappers
  import opened Text

  /** get_arch, with `platform.machine()` as the parameter. */
  function GetArch(machine: string): (arch: string)
    ensures machine == "x86_64" ==> arch == "amd64"
    ensures machine != "x86_64" ==> arch == machine
  {
    if machine == "x86_64" then "amd64" else machine
  }

  /** Reporting an already reported name again changes nothing. */
  lemma GetArchIdempotent(machine: string)
    ensures GetArch(GetArch(machine)) == GetArch(machine)
  {
  }

  // ---------------------------------------------------------------------
  // Masking

  /** What a secret is replaced with. */
  const STARS: string := "******"

  /** No character of the text is `*`. */
  predicate Starless(s: string) {
    forall k :: 0 <= k < |s| ==> s[k] != '*'
  }

  /** The loop in `send`: each masked string in list order replaced, all
      occurrences, by the stars. */
  function MaskAll(data: string, masked: seq<string>): (r: string)
    ensures masked == [] ==> r == data
    decreases |masked|
  {
    if masked == [] then data else MaskAll(ReplaceAll(data, masked[0], STARS), masked[1..])
  }

  /** Stars in front of a text cannot start an occurrence of a text that
      does not start with a star. */
  lemma {:induction false} SkipStars(p: string, t: string, tok: string)
    requires forall k :: 0 <= k < |p| ==> p[k] == '*'
    requires tok != [] && tok[0] != '*'
    ensures Contains(p + t, tok) ==> Contains(t, tok)
  {
    if p != [] {
      assert !StartsWith(p + t, tok) by {
        assert (p + t)[0] == '*';
      }
      assert (p + t)[1..] == p[1..] + t;
      SkipStars(p[1..], t, tok);
    } else {
      assert p + t == t;
    }
  }

  /** A starless text at the front of a replacement's output was at the
      front of its input: replacement only ever puts stars in. */
  lemma {:induction false} PrefixBack(t: string, x: string, w: string)
    requires Starless(w)
    ensures StartsWith(ReplaceAll(t, x, STARS), w) ==> StartsWith(t, w)
    decreases |t|
  {
    var r := ReplaceAll(t, x, STARS);
    if w == [] {
    } else if x == [] || StartsWith(t, x) {
      assert r[0] == '*';
    } else if t == [] {
    } else {
      assert r == [t[0]] + ReplaceAll(t[1..], x, STARS);
      if StartsWith(r, w) {
        assert StartsWith(ReplaceAll(t[1..], x, STARS), w[1..]) by {
          assert r[1..] == ReplaceAll(t[1..], x, STARS);
          assert r[1..][..|w| - 1] == r[..|w|][1..];
        }
        PrefixBack(t[1..], x, w[1..]);
        assert t[..|w|] == [t[0]] + t[1..][..|w| - 1];
      }
    }
  }

  /** Replacing anything by stars does not make a starless text appear. */
  lemma {:induction false} ReplaceKeepsAbsent(d: string, x: string, tok: string)
    requires tok != [] && Starless(tok) && !Contains(d, tok)
    ensures !Contains(ReplaceAll(d, x, STARS), tok)
    decreases |d|
  {
    var r := ReplaceAll(d, x, STARS);
    if x == [] {
      var rest := if d == [] then [] else [d[0]] + ReplaceAll(d[1..], x, STARS);
      assert r == STARS + rest;
      SkipStars(STARS, rest, tok);
      if d != [] {
        assert !Contains(d[1..], tok);
        ReplaceKeepsAbsent(d[1..], x, tok);
        PrefixBack(d, x, tok);
        assert !StartsWith(rest, tok) by {
          if StartsWith(rest, tok) {
            StartsAfterHead(d, x, tok);
          }
        }
        assert rest[1..] == ReplaceAll(d[1..], x, STARS);
      }
    } else if StartsWith(d, x) {
      assert !Contains(d[|x|..], tok) by {
        DropKeepsAbsent(d, |x|, tok);
      }
      ReplaceKeepsAbsent(d[|x|..], x, tok);
      SkipStars(STARS, ReplaceAll(d[|x|..], x, STARS), tok);
    } else if d == [] {
    } else {
      assert r == [d[0]] + ReplaceAll(d[1..], x, STARS);
      ReplaceKeepsAbsent(d[1..], x, tok);
      PrefixBack(d, x, tok);
      assert r[1..] == ReplaceAll(d[1..], x, STARS);
    }
  }

  /** With an empty needle, the head of the text followed by the rest's
      replacement cannot start with a starless token the text does not
      start with. */
  lemma StartsAfterHead(d: string, x: string, tok: string)
    requires x == [] && d != [] && tok != [] && Starless(tok) && !StartsWith(d, tok)
    ensures !StartsWith([d[0]] + ReplaceAll(d[1..], x, STARS), tok)
  {
    var tail := ReplaceAll(d[1..], x, STARS);
    var rest := [d[0]] + tail;
    assert tail[0] == '*';
    if |tok| == 1 {
      assert d[..1] == [d[0]] && rest[..1] == [d[0]];
    } else {
      assert rest[1] == '*' && tok[1] != '*';
    }
  }

  /** Dropping a prefix cannot make an occurrence appear. */
  lemma {:induction false} DropKeepsAbsent(d: string, n: nat, tok: string)
    requires n <= |d| && !Contains(d, tok)
    ensures !Contains(d[n..], tok)
  {
    if n > 0 {
      assert d[1..][n - 1..] == d[n..];
      DropKeepsAbsent(d[1..], n - 1, tok);
    }
  }

  /** Replacing a non-empty starless secret by stars leaves no occurrence
      of it. */
  lemma {:induction false} MaskRemoves(d: string, tok: string)
    requires tok != [] && Starless(tok)
    ensures !Contains(ReplaceAll(d, tok, STARS), tok)
    decreases |d|
  {
    var r := ReplaceAll(d, tok, STARS);
    if StartsWith(d, tok) {
      MaskRemoves(d[|tok|..], tok);
      SkipStars(STARS, ReplaceAll(d[|tok|..], tok, STARS), tok);
    } else if d == [] {
    } else {
      assert r == [d[0]] + ReplaceAll(d[1..], tok, STARS);
      MaskRemoves(d[1..], tok);
      PrefixBack(d, tok, tok);
      assert r[1..] == ReplaceAll(d[1..], tok, STARS);
    }
  }

  /** Masking more strings keeps an absent secret absent. */
  lemma {:induction false} MaskAllKeepsAbsent(d: string, masked: seq<string>, tok: string)
    requires tok != [] && Starless(tok) && !Contains(d, tok)
    ensures !Contains(MaskAll(d, masked), tok)
    decreases |masked|
  {
    if masked != [] {
      ReplaceKeepsAbsent(d, masked[0], tok);
      MaskAllKeepsAbsent(ReplaceAll(d, masked[0], STARS), masked[1..], tok);
    }
  }

  /** No masked string that is non-empty and has no `*` in it survives the
      masking, whatever the order of the list. */
  lemma {:induction false} MaskHides(d: string, masked: seq<string>, secret: string)
    requires secret in masked && secret != [] && Starless(secret)
    ensures !Contains(MaskAll(d, masked), secret)
    decreases |masked|
  {
    if masked[0] == secret {
      MaskRemoves(d, secret);
      MaskAllKeepsAbsent(ReplaceAll(d, secret, STARS), masked[1..], secret);
    } else {
      MaskHides(ReplaceAll(d, masked[0], STARS), masked[1..], secret);
    }
  }

  /** An empty masked value puts the stars before, between and after every
      character. */
  lemma EmptyMaskedValue(data: string)
    ensures |MaskAll(data, [[]])| == |data| + (|data| + 1) * |STARS|
  {
    ReplaceEmptyLength(data, STARS);
  }

  /** Masking never empties a non-empty chunk: a replaced occurrence leaves
      stars. */
  lemma {:induction false} MaskKeepsNonEmpty(d: string, masked: seq<string>)
    requires d != []
    ensures MaskAll(d, masked) != []
    decreases |masked|
  {
    if masked != [] {
      var x := masked[0];
      var r := ReplaceAll(d, x, STARS);
      assert r != [] by {
        if x != [] && !StartsWith(d, x) {
          assert r == [d[0]] + ReplaceAll(d[1..], x, STARS);
        }
      }
      MaskKeepsNonEmpty(r, masked[1..]);
    }
  }

  // ---------------------------------------------------------------------
  // The trace uploader

  /** The buffer size that triggers a flush once exceeded. */
  const BUFSIZE: nat := 512

  /** A PATCH of the job trace: the (masked) data and its headers. */
  datatype Patch = Patch(data: string, contentLength: string, contentRange: string)

  /** The Content-Range header: first and last byte of the chunk. */
  function ContentRange(offset: int, size: int): (header: string)
    ensures header == IntToString(offset) + "-" + IntToString(offset + size - 1)
  {
    IntToString(offset) + "-" + IntToString(offset + size - 1)
  }

  /** The number of characters sent in a list of requests. */
  function Total(sent: seq<Patch>): nat {
    if sent == [] then 0 else Total(sent[..|sent| - 1]) + |sent[|sent| - 1].data|
  }

  /** The request a chunk of masked data makes when the trace is at
      `offset`. */
  function PatchAt(offset: nat, masked: string): (p: Patch)
    ensures p.data == masked && p.contentLength == IntToString(|masked|)
    ensures p.contentRange == IntToString(offset) + "-" + IntToString(offset + |masked| - 1)
  {
    Patch(masked, IntToString(|masked|), ContentRange(offset, |masked|))
  }

  /** The requests tile the trace: each one's range starts where the
      previous one's ended. */
  ghost predicate Tiles(sent: seq<Patch>) {
    sent == [] ||
    (Tiles(sent[..|sent| - 1]) &&
     sent[|sent| - 1] == PatchAt(Total(sent[..|sent| - 1]), sent[|sent| - 1].data))
  }

  lemma TilesSnoc(sent: seq<Patch>, masked: string)
    requires Tiles(sent)
    ensures Tiles(sent + [PatchAt(Total(sent), masked)])
    ensures Total(sent + [PatchAt(Total(sent), masked)]) == Total(sent) + |masked|
  {
    var s := sent + [PatchAt(Total(sent), masked)];
    assert s[..|sent|] == sent;
  }

  /** Every request's range starts at the total of the requests before it. */
  lemma {:induction false} TilesAt(sent: seq<Patch>, i: nat)
    requires Tiles(sent) && i < |sent|
    ensures sent[i] == PatchAt(Total(sent[..i]), sent[i].data)
  {
    if i < |sent| - 1 {
      var init := sent[..|sent| - 1];
      TilesAt(init, i);
      assert init[..i] == sent[..i];
    }
  }

  /** All the pieces of a trace, joined. */
  function Concat(chunks: seq<string>): string {
    if chunks == [] then [] else Concat(chunks[..|chunks| - 1]) + chunks[|chunks| - 1]
  }

  /** No request carries an empty chunk. */
  ghost predicate NonEmptyChunks(chunks: seq<string>) {
    chunks == [] || (NonEmptyChunks(chunks[..|chunks| - 1]) && chunks[|chunks| - 1] != [])
  }

  /** Sending the buffer keeps what was written in order. */
  lemma ChunksSnoc(chunks: seq<string>, x: string)
    requires NonEmptyChunks(chunks) && x != []
    ensures Concat(chunks + [x]) == Concat(chunks) + x
    ensures NonEmptyChunks(chunks + [x])
  {
    assert (chunks + [x])[..|chunks|] == chunks;
  }

  lemma AppendAssoc(a: string, b: string, c: string)
    ensures a + (b + c) == (a + b) + c
  {
  }

  class TraceUploader {
    const jobToken: string
    /** The trace's position on the server: characters sent so far. */
    var offset: nat
    var buf: string
    /** The strings `send` masks; the job token is the first. */
    var maskedStrings: seq<string>
    /** The requests made, in order. */
    var sent: seq<Patch>
    /** How many times a request failed and `on_error` was called. */
    var errors: nat
    /** Everything written so far, and the unmasked data of each request. */
    ghost var written: string
    ghost var raw: seq<string>

    /** The requests tile the trace, the offset is their total, and what
        was sent and what is still buffered is exactly what was written, in
        order. */
    ghost predicate Valid()
      reads this
    {
      |buf| <= BUFSIZE && Consistent()
    }

    /** The invariant without the bound on the buffer, which `write`
        breaks for a moment before it flushes. */
    ghost predicate Consistent()
      reads this
    {
      Sending() && Concat(raw) + buf == written
    }

    /** The part of the invariant `send` keeps by itself. */
    ghost predicate Sending()
      reads this
    {
      offset == Total(sent) && Tiles(sent) && |raw| == |sent| && NonEmptyChunks(raw)
    }

    constructor (jobToken: string)
      ensures Valid()
      ensures this.jobToken == jobToken && maskedStrings == [jobToken]
      ensures offset == 0 && buf == [] && sent == [] && errors == 0 && written == []
    {
      this.jobToken := jobToken;
      offset := 0;
      buf := [];
      maskedStrings := [jobToken];
      sent := [];
      errors := 0;
      written := [];
      raw := [];
    }

    /** One more string to mask, as the runner does for masked variables. */
    method AddMasked(s: string)
      requires Valid()
      modifies this
      ensures Valid()
      ensures maskedStrings == old(maskedStrings) + [s]
      ensures offset == old(offset) && buf == old(buf) && sent == old(sent) && errors == old(errors)
      ensures written == old(written)
    {
      maskedStrings := maskedStrings + [s];
    }

    /** send: masks the data, makes one request whose range starts at the
        offset, and moves the offset by the masked size whether or not the
        server accepts it (`accepted`); a refusal calls `on_error`. */
    method Send(data: string, accepted: bool)
      requires Sending() && data != []
      modifies this
      ensures Sending()
      ensures var masked := MaskAll(data, maskedStrings);
              sent == old(sent) + [PatchAt(old(offset), masked)] && offset == old(offset) + |masked|
      ensures errors == old(errors) + (if accepted then 0 else 1)
      ensures raw == old(raw) + [data]
      ensures buf == old(buf) && maskedStrings == old(maskedStrings) && written == old(written)
    {
      var masked := MaskAll(data, maskedStrings);
      TilesSnoc(sent, masked);
      ChunksSnoc(raw, data);
      sent := sent + [PatchAt(offset, masked)];
      offset := offset + |masked|;
      raw := raw + [data];
      if !accepted {
        errors := errors + 1;
      }
    }

    /** flush: sends a non-empty buffer and empties it. */
    method Flush(accepted: bool)
      requires Consistent()
      modifies this
      ensures Valid() && buf == []
      ensures old(buf) == [] ==> sent == old(sent) && offset == old(offset) && errors == old(errors)
      ensures old(buf) != [] ==>
                var masked := MaskAll(old(buf), maskedStrings);
                sent == old(sent) + [PatchAt(old(offset), masked)] && offset == old(offset) + |masked| &&
                errors == old(errors) + (if accepted then 0 else 1)
      ensures maskedStrings == old(maskedStrings) && written == old(written)
    {
      if buf != [] {
        ChunksSnoc(raw, buf);
        Send(buf, accepted);
        buf := [];
      }
    }

    /** write: appends to the buffer and flushes once it is over the size. */
    method Write(data: string, accepted: bool)
      requires Valid()
      modifies this
      ensures Valid()
      ensures written == old(written) + data && maskedStrings == old(maskedStrings)
      ensures |old(buf) + data| <= BUFSIZE ==>
                buf == old(buf) + data && sent == old(sent) && offset == old(offset) && errors == old(errors)
      ensures |old(buf) + data| > BUFSIZE ==>
                var masked := MaskAll(old(buf) + data, maskedStrings);
                buf == [] && sent == old(sent) + [PatchAt(old(offset), masked)] &&
                offset == old(offset) + |masked| && errors == old(errors) + (if accepted then 0 else 1)
    {
      AppendAssoc(Concat(raw), buf, data);
      buf := buf + data;
      written := written + data;
      if |buf| > BUFSIZE {
        Flush(accepted);
      }
    }

    /** writeline: the line and a newline, then a flush, so nothing stays
        buffered. */
    method WriteLine(line: string, accepted: bool)
      requires Valid()
      modifies this
      ensures Valid() && buf == []
      ensures written == old(written) + line + "\n" && maskedStrings == old(maskedStrings)
      ensures offset >= old(offset) && |sent| >= |old(sent)|
    {
      Write(line, accepted);
      Write("\n", accepted);
      Flush(accepted);
    }
  }

  // ---------------------------------------------------------------------
  // RunnerConfig.get_envs

  /** The runner settings that reach a job's environment. The CA file is
      given as its absolute path. */
  datatype RunnerConfig = RunnerConfig(caCert: Option<string>, httpProxy: Option<string>,
                                       httpsProxy: Option<string>)

  /** A proxy setting is used when it is set and not empty. */
  predicate Given(s: Option<string>) {
    s.Some? && s.value != []
  }

  /** `envs.get(name)`. */
  function Lookup(envs: seq<(string, string)>, name: string): Option<string> {
    if envs == [] then None
    else if envs[0].0 == name then Some(envs[0].1)
    else Lookup(envs[1..], name)
  }

  lemma {:induction false} LookupAppend(a: seq<(string, string)>, b: seq<(string, string)>, name: string)
    ensures Lookup(a + b, name) == if Lookup(a, name).Some? then Lookup(a, name) else Lookup(b, name)
  {
    if a == [] {
      assert a + b == b;
    } else {
      assert (a + b)[1..] == a[1..] + b;
      LookupAppend(a[1..], b, name);
    }
  }

  /** The value a proxy setting contributes. */
  function ProxyValue(s: Option<string>): (v: Option<string>)
    ensures v.Some? <==> Given(s)
  {
    if Given(s) then s else None
  }

  /** RunnerConfig.get_envs: the CA bundle variables when a CA file is
      set, each proxy variable when that proxy is set, in that order. */
  function GetEnvs(cfg: RunnerConfig): (envs: seq<(string, string)>)
    ensures |envs| == (if cfg.caCert.Some? then 2 else 0) + (if Given(cfg.httpProxy) then 1 else 0)
                      + (if Given(cfg.httpsProxy) then 1 else 0)
    ensures Lookup(envs, "REQUESTS_CA_BUNDLE") == cfg.caCert
    ensures Lookup(envs, "GIT_SSL_CAINFO") == cfg.caCert
    ensures Lookup(envs, "HTTP_PROXY") == ProxyValue(cfg.httpProxy)
    ensures Lookup(envs, "HTTPS_PROXY") == ProxyValue(cfg.httpsProxy)
  {
    var ca := if cfg.caCert.Some? then [("REQUESTS_CA_BUNDLE", cfg.caCert.value), ("GIT_SSL_CAINFO", cfg.caCert.value)] else [];
    var http := if Given(cfg.httpProxy) then [("HTTP_PROXY", cfg.httpProxy.value)] else [];
    var https := if Given(cfg.httpsProxy) then [("HTTPS_PROXY", cfg.httpsProxy.value)] else [];
    LookupAppend(ca, http + https, "REQUESTS_CA_BUNDLE");
    LookupAppend(ca, http + https, "GIT_SSL_CAINFO");
    LookupAppend(ca, http + https, "HTTP_PROXY");
    LookupAppend(ca, http + https, "HTTPS_PROXY");
    LookupAppend(http, https, "REQUESTS_CA_BUNDLE");
    LookupAppend(http, https, "GIT_SSL_CAINFO");
    LookupAppend(http, https, "HTTP_PROXY");
    LookupAppend(http, https, "HTTPS_PROXY");
    ca + (http + https)
  }

  /** A default configuration adds nothing; with both proxies set both
      variables are there. */
  lemma GetEnvsProxies(http: string, https: string)
    requires http != [] && https != []
    ensures GetEnvs(RunnerConfig(None, None, None)) == []
    ensures var envs := GetEnvs(RunnerConfig(None, Some(http), Some(https)));
            Lookup(envs, "HTTP_PROXY") == Some(http) && Lookup(envs, "HTTPS_PROXY") == Some(https)
  {
  }
}
