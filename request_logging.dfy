// RequestLoggingFilter: the first filter of the chain. It skips static resources
// and the API documentation, and for the sampled requests it writes an opening log
// line and a completion line around the rest of the chain. Only the decisions are
// modelled: which line is written, with which abbreviated user agent or client
// address, and that the rest of the chain runs once.

module RequestLoggingFilter {
  import opened Wrappers
  import opened JavaText
  import opened AntPath
  import opened BaseSecurityFilter

  /** The parts of a request the filter reads. `headers` maps a header name to its
      value; an absent name reads as null. */
  datatype Request = Request(httpMethod: string, uri: string, headers: map<string, string>, remoteAddr: string)

  function Header(req: Request, name: string): Option<string>
  {
    if name in req.headers then Some(req.headers[name]) else None
  }

  // -------------------------------------------------------------------------
  // User agent

  const MaxAgentLength: nat := 30

  /** `abbreviateUserAgent`: a null agent or one of at most 30 characters is kept;
      a longer one becomes its first 27 characters and "...". */
  function AbbreviateUserAgent(ua: Option<string>): (r: Option<string>)
    ensures ua.None? ==> r.None?
    ensures ua.Some? ==> r.Some? && |r.value| <= MaxAgentLength
    ensures ua.Some? && |ua.value| <= MaxAgentLength ==> r == ua
    ensures ua.Some? && |ua.value| > MaxAgentLength ==>
      |r.value| == MaxAgentLength && StartsWith(ua.value, r.value[..27]) && EndsWith(r.value, "...")
  {
    if ua.None? || |ua.value| <= MaxAgentLength then ua
    else
      var r := ua.value[..27] + "...";
      assert r[..27] == ua.value[..27];
      assert r[|r| - 3..] == "...";
      Some(r)
  }

  // -------------------------------------------------------------------------
  // Client address

  /** The headers `getClientIp` consults, in order. */
  const ClientIpHeaders: seq<string> :=
    ["X-Forwarded-For", "Proxy-Client-IP", "WL-Proxy-Client-IP", "HTTP_CLIENT_IP", "HTTP_X_FORWARDED_FOR"]

  /** A header value that names an address: present, not empty and not "unknown"
      in any letter case. */
  predicate Usable(v: Option<string>)
  {
    v.Some? && v.value != [] && !EqualsIgnoreCase("unknown", v.value)
  }

  /** The first usable value among the named headers, else the remote address. */
  function FirstUsable(req: Request, names: seq<string>): (ip: string)
    ensures (exists i :: 0 <= i < |names| && Usable(Header(req, names[i])) && ip == Header(req, names[i]).value
               && (forall j :: 0 <= j < i ==> !Usable(Header(req, names[j]))))
            || ((forall j :: 0 <= j < |names| ==> !Usable(Header(req, names[j]))) && ip == req.remoteAddr)
  {
    if names == [] then req.remoteAddr
    else if Usable(Header(req, names[0])) then Header(req, names[0]).value
    else
      var ip := FirstUsable(req, names[1..]);
      assert forall j :: 1 <= j < |names| ==> names[j] == names[1..][j - 1];
      ip
  }

  /** One step of the search: the head name decides, else the rest. */
  lemma FirstUsableStep(req: Request, names: seq<string>, rest: seq<string>)
    requires names != [] && names[1..] == rest
    ensures FirstUsable(req, names)
            == if Usable(Header(req, names[0])) then Header(req, names[0]).value else FirstUsable(req, rest)
  {
  }

  /** `getClientIp`: the chain of reassignments of `ip`. */
  method GetClientIp(req: Request) returns (ip: string)
    ensures ip == FirstUsable(req, ClientIpHeaders)
  {
    ghost var rest := ClientIpHeaders;
    var v := Header(req, "X-Forwarded-For");
    FirstUsableStep(req, rest, rest[1..]);
    rest := rest[1..];
    if !Usable(v) {
      v := Header(req, "Proxy-Client-IP");
      FirstUsableStep(req, rest, rest[1..]);
      rest := rest[1..];
    }
    if !Usable(v) {
      v := Header(req, "WL-Proxy-Client-IP");
      FirstUsableStep(req, rest, rest[1..]);
      rest := rest[1..];
    }
    if !Usable(v) {
      v := Header(req, "HTTP_CLIENT_IP");
      FirstUsableStep(req, rest, rest[1..]);
      rest := rest[1..];
    }
    if !Usable(v) {
      v := Header(req, "HTTP_X_FORWARDED_FOR");
      FirstUsableStep(req, rest, rest[1..]);
      rest := rest[1..];
    }
    if !Usable(v) {
      ip := req.remoteAddr;
    } else {
      ip := v.value;
    }
  }

  // -------------------------------------------------------------------------
  // Which requests are logged

  /** `isLowValueEndpoint`: health, status and metrics endpoints. */
  predicate IsLowValueEndpoint(uri: string)
  {
    StartsWith(uri, "/api/health") || Contains(uri, "/status") || Contains(uri, "/metrics")
  }

  /** `p` occurs in `s` starting at position `i`. */
  predicate OccursAt(s: string, p: string, i: int)
  {
    0 <= i <= |s| - |p| && s[i..i + |p|] == p
  }

  /** `Contains` finds the text at some position. */
  lemma {:induction false} ContainsAt(s: string, p: string)
    ensures Contains(s, p) <==> exists i :: OccursAt(s, p, i)
    decreases |s|
  {
    if StartsWith(s, p) {
      assert OccursAt(s, p, 0);
    } else if |s| > 0 {
      ContainsAt(s[1..], p);
      if Contains(s[1..], p) {
        var i :| OccursAt(s[1..], p, i);
        assert s[1..][i..i + |p|] == s[i + 1..i + 1 + |p|];
        assert OccursAt(s, p, i + 1);
      }
      if exists i :: OccursAt(s, p, i) {
        var i :| OccursAt(s, p, i);
        assert i != 0;
        assert s[1..][i - 1..i - 1 + |p|] == s[i..i + |p|];
        assert OccursAt(s[1..], p, i - 1);
      }
    }
  }

  /** A low-value endpoint starts with "/api/health" or holds "/status" or
      "/metrics" somewhere. */
  lemma LowValueIff(uri: string)
    ensures IsLowValueEndpoint(uri) <==>
      StartsWith(uri, "/api/health") || (exists i :: OccursAt(uri, "/status", i)) || (exists i :: OccursAt(uri, "/metrics", i))
  {
    ContainsAt(uri, "/status");
    ContainsAt(uri, "/metrics");
  }

  /** The extensions of static resources. */
  const StaticExtensions: seq<string> := ["css", "js", "html", "png", "jpg", "jpeg", "gif", "ico", "svg"]

  /** The characters a regular-expression `.` does not match. */
  predicate IsLineTerminator(c: char)
  {
    c == '\n' || c == '\r' || c == '\U{0085}' || c == '\U{2028}' || c == '\U{2029}'
  }

  /** The whole path is one or more non-terminator characters, a dot and `ext`. */
  predicate HasStaticSuffix(path: string, ext: string)
  {
    |path| > |ext| + 1 && EndsWith(path, "." + ext)
    && forall i :: 0 <= i < |path| - |ext| - 1 ==> !IsLineTerminator(path[i])
  }

  /** `staticResourcePattern.matcher(path).matches()`, one extension at a time. */
  function AnyStaticSuffix(path: string, exts: seq<string>): (r: bool)
    ensures r <==> exists k :: 0 <= k < |exts| && HasStaticSuffix(path, exts[k])
  {
    if exts == [] then false
    else
      var r := HasStaticSuffix(path, exts[0]) || AnyStaticSuffix(path, exts[1..]);
      assert forall k :: 1 <= k < |exts| ==> exts[k] == exts[1..][k - 1];
      r
  }

  predicate IsStaticResource(path: string)
  {
    AnyStaticSuffix(path, StaticExtensions)
  }

  /** The filter's own bypass list: everything under `/swagger-ui` and
      `/v3/api-docs`. */
  const LoggingPublicPaths: seq<Pat> := [Lit("swagger-ui", AnySegs(End)), Lit("v3", Lit("api-docs", AnySegs(End)))]

  /** `shouldNotFilter`: static resources first, then the bypass list. */
  predicate ShouldNotFilter(path: string)
  {
    IsStaticResource(path) || AnyMatch(LoggingPublicPaths, path)
  }

  /** A static resource has at least one character before its dot and extension,
      so a bare ".css" is filtered. */
  lemma StaticHasStem(path: string)
    requires IsStaticResource(path)
    ensures exists k :: (0 <= k < |StaticExtensions|
              && |path| >= |StaticExtensions[k]| + 2 && path[|path| - |StaticExtensions[k]| - 1] == '.'
              && path[|path| - |StaticExtensions[k]|..] == StaticExtensions[k])
  {
    var k :| 0 <= k < |StaticExtensions| && HasStaticSuffix(path, StaticExtensions[k]);
    var e := StaticExtensions[k];
    assert path[|path| - |e| - 1..] == "." + e;
    assert path[|path| - |e| - 1] == ("." + e)[0];
    assert path[|path| - |e|..] == path[|path| - |e| - 1..][1..];
  }

  /** A path under the API documentation is not logged, whatever follows. */
  lemma DocsNotLogged(rest: seq<string>)
    ensures Match(LoggingPublicPaths[1], ["v3", "api-docs"] + rest)
  {
    AnyMatchesAll(End, rest);
    LitStep("v3", Lit("api-docs", AnySegs(End)), "v3", ["api-docs"] + rest);
    LitStep("api-docs", AnySegs(End), "api-docs", rest);
    assert ["v3", "api-docs"] + rest == ["v3"] + (["api-docs"] + rest);
  }

  // -------------------------------------------------------------------------
  // The logging stage

  datatype Level = Debug | Info | Warn

  /** The opening line: a debug line with the abbreviated user agent for a GET of
      a low-value endpoint, otherwise an info line with the client address. */
  datatype Opening = LowValue(agent: Option<string>) | Started(ip: string)

  /** What the stage does: how often it runs the rest of the chain and the lines it
      writes for a sampled request. */
  datatype Trace = Trace(chainCalls: nat, opening: Option<Opening>, completion: Option<Level>)

  /** The level of the completion line: warn for an error status or a slow request. */
  function CompletionLevel(status: int, duration: int): (l: Level)
    ensures l == Warn <==> status >= 400 || duration > 1000
    ensures l != Info
  {
    if status >= 400 || duration > 1000 then Warn else Debug
  }

  /** `doFilterInternal(context)`. `sampled` is the outcome of the random draw, and
      `status` and `duration` what the rest of the chain produced. */
  method LoggingStage(req: Request, sampled: bool, status: int, duration: int) returns (t: Trace)
    ensures t.chainCalls == 1
    ensures t.opening.Some? <==> sampled
    ensures t.completion.Some? <==> sampled
    ensures sampled ==> t.completion == Some(CompletionLevel(status, duration))
    ensures sampled && req.httpMethod == "GET" && IsLowValueEndpoint(req.uri) ==>
      t.opening == Some(LowValue(AbbreviateUserAgent(Header(req, "User-Agent"))))
    ensures sampled && !(req.httpMethod == "GET" && IsLowValueEndpoint(req.uri)) ==>
      t.opening == Some(Started(FirstUsable(req, ClientIpHeaders)))
  {
    var chainCalls := 0;
    if sampled {
      var opening: Opening;
      if req.httpMethod == "GET" && IsLowValueEndpoint(req.uri) {
        opening := LowValue(AbbreviateUserAgent(Header(req, "User-Agent")));
      } else {
        var ip := GetClientIp(req);
        opening := Started(ip);
      }
      chainCalls := chainCalls + 1;
      var level := if status >= 400 || duration > 1000 then Warn else Debug;
      t := Trace(chainCalls, Some(opening), Some(level));
    } else {
      chainCalls := chainCalls + 1;
      t := Trace(chainCalls, None, None);
    }
  }
}
