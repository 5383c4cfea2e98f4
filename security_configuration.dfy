// SecurityConfiguration: the role table kept for the security metrics, the
// ordered request-matcher groups that decide what each request needs, and the
// tag under which an endpoint's access counter is registered.

module SecurityConfiguration {
  import opened Wrappers
  import opened JavaText
  import opened AntPath

  const Admin: string := "ADMINISTRADOR"
  const Profesor: string := "PROFESOR"
  const Tutor: string := "TUTOR"
  const Estudiante: string := "ESTUDIANTE"

  // ---------------------------------------------------------------------------
  // The pattern/role table

  /** The calls of `initializePatternRoleMap`, in order. */
  const RoleTable: seq<(string, set<string>)> := [
    ("/api/auth/login", {}),
    ("/swagger-ui.html", {}),
    ("/v3/api-docs/**", {}),
    ("/swagger-ui/**", {}),
    ("/api/test/redis", {}),
    ("/api/user/add", {}),
    ("/api/user/getAll", {Admin}),
    ("/api/estudiante/getAll", {Admin}),
    ("/api/profesor/add", {Admin}),
    ("/api/estudiante/add", {Admin}),
    ("/api/tutorlegal/add", {Admin}),
    ("/api/user/add", {Admin}),
    ("/api/**/delete/**", {Admin}),
    ("/api/estudiante/update", {Admin}),
    ("/api/profesor/update", {Admin}),
    ("/api/tutorlegal/update", {Admin}),
    ("/api/asistencia/add", {Admin, Profesor}),
    ("/api/asistencia/update/**", {Admin, Profesor}),
    ("/api/asistencia/**", {Admin, Profesor}),
    ("/api/profesor/**", {Admin, Profesor}),
    ("/api/tutorlegal/**", {Admin, Profesor}),
    ("/api/estudiante/{id}", {Admin, Profesor, Tutor}),
    ("/api/estudiante/{id}/asistencias", {Admin, Profesor, Tutor}),
    ("/api/estudiante/filterGrado", {Admin, Profesor, Tutor}),
    ("/api/tutorlegal/asistenciaHijo/{id}", {Admin, Profesor, Tutor}),
    ("/api/auth/logout", {Admin, Profesor, Tutor, Estudiante}),
    ("/api/user/{id}", {Admin, Profesor, Tutor, Estudiante}),
    ("/api/profesor/{id}", {Admin, Profesor}),
    ("/api/tutorlegal/{id}", {Admin, Profesor, Tutor})
  ]

  /** The map after the given puts, each one overwriting its key. */
  function PutAll(puts: seq<(string, set<string>)>): map<string, set<string>>
  {
    if puts == [] then map[] else PutAll(puts[..|puts| - 1])[puts[|puts| - 1].0 := puts[|puts| - 1].1]
  }

  /** `initializePatternRoleMap`: one `addPatternRoles` per entry of the table. */
  method InitializePatternRoleMap() returns (patternRoleMap: map<string, set<string>>)
    ensures patternRoleMap == PutAll(RoleTable)
  {
    patternRoleMap := map[];
    for i := 0 to |RoleTable|
      invariant patternRoleMap == PutAll(RoleTable[..i])
    {
      assert RoleTable[..i + 1][..i] == RoleTable[..i];
      patternRoleMap := patternRoleMap[RoleTable[i].0 := RoleTable[i].1];
    }
    assert RoleTable[..|RoleTable|] == RoleTable;
  }

  /** A key is in the map iff some put used it, and it holds the roles of the last
      such put. */
  lemma {:induction false} LastPutWins(puts: seq<(string, set<string>)>, k: string, i: int)
    requires 0 <= i < |puts| && puts[i].0 == k
    requires forall j :: i < j < |puts| ==> puts[j].0 != k
    ensures k in PutAll(puts) && PutAll(puts)[k] == puts[i].1
  {
    if i < |puts| - 1 {
      var init := puts[..|puts| - 1];
      assert init[i] == puts[i];
      forall j | i < j < |init| ensures init[j].0 != k {
        assert init[j] == puts[j];
      }
      LastPutWins(init, k, i);
    }
  }

  lemma {:induction false} PutAllKeys(puts: seq<(string, set<string>)>, k: string)
    ensures k in PutAll(puts) <==> exists i :: 0 <= i < |puts| && puts[i].0 == k
  {
    if puts != [] {
      var init := puts[..|puts| - 1];
      PutAllKeys(init, k);
      if exists i :: 0 <= i < |init| && init[i].0 == k {
        var i :| 0 <= i < |init| && init[i].0 == k;
        assert puts[i] == init[i];
      }
      if exists i :: 0 <= i < |puts| && puts[i].0 == k {
        var i :| 0 <= i < |puts| && puts[i].0 == k;
        if i < |init| { assert init[i] == puts[i]; }
      }
    }
  }

  /** The second put for `/api/user/add` replaces the empty set by the
      administrator alone; the first pattern keeps its empty set. */
  lemma UserAddOverwritten(m: map<string, set<string>>)
    requires m == PutAll(RoleTable)
    ensures "/api/user/add" in m && m["/api/user/add"] == {Admin}
    ensures "/api/auth/login" in m && m["/api/auth/login"] == {}
  {
    LastPutWins(RoleTable, "/api/user/add", 11);
    LastPutWins(RoleTable, "/api/auth/login", 0);
  }

  // ---------------------------------------------------------------------------
  // Request matchers

  /** What a request needs to be let through. */
  datatype Access = PermitAll | Authenticated | AnyRole(roles: set<string>)

  /** An `AntPathRequestMatcher`: a pattern and, when given, the one HTTP method. */
  datatype Matcher = Matcher(httpMethod: Option<string>, pattern: Pat)

  function On(m: string, p: Pat): Matcher { Matcher(Some(m), p) }
  function AnyMethod(p: Pat): Matcher { Matcher(None, p) }

  // Pattern shapes: `/api/a/b`, everything under `/api/a`, `/api/a/{id}`.
  function Api2(a: string, b: string): Pat { Lit("api", Lit(a, Lit(b, End))) }
  function ApiAll(a: string): Pat { Lit("api", Lit(a, AnySegs(End))) }
  function ApiVar(a: string): Pat { Lit("api", Lit(a, Var(End))) }

  const PublicEndpoints: seq<Matcher> := [
    On("POST", Api2("auth", "login")),
    AnyMethod(Lit("swagger-ui.html", End)),
    AnyMethod(Lit("v3", Lit("api-docs", AnySegs(End)))),
    AnyMethod(Lit("swagger-ui", AnySegs(End))),
    On("GET", Api2("test", "redis")),
    On("POST", Api2("user", "add"))
  ]

  const SelfAccessEndpoints: seq<Matcher> := [
    On("GET", ApiVar("user")),
    On("GET", ApiVar("profesor")),
    On("GET", ApiVar("tutorlegal"))
  ]

  const AdministratorEndpoints: seq<Matcher> := [
    On("GET", Api2("user", "getAll")),
    On("GET", Api2("estudiante", "getAll")),
    On("POST", Api2("profesor", "add")),
    On("POST", Api2("estudiante", "add")),
    On("POST", Api2("tutorlegal", "add")),
    On("POST", Api2("user", "add")),
    On("DELETE", Lit("api", AnySegs(End))),
    On("PUT", Api2("estudiante", "update")),
    On("PUT", Api2("profesor", "update")),
    On("PUT", Api2("tutorlegal", "update")),
    On("POST", Api2("asistencia", "add")),
    On("PATCH", Lit("api", Lit("asistencia", Lit("update", AnySegs(End))))),
    On("POST", ApiAll("grado")),
    On("GET", ApiAll("grado")),
    On("DELETE", ApiAll("grado")),
    On("PATCH", ApiAll("grado"))
  ]

  const TeacherEndpoints: seq<Matcher> := [
    On("POST", Api2("asistencia", "add")),
    On("PUT", Lit("api", Lit("asistencia", Lit("update", AnySegs(End))))),
    On("GET", ApiAll("asistencia")),
    On("GET", ApiAll("profesor")),
    On("GET", ApiAll("tutorlegal"))
  ]

  const TutorEndpoints: seq<Matcher> := [
    On("GET", ApiVar("estudiante")),
    On("GET", Lit("api", Lit("estudiante", Var(Lit("asistencias", End))))),
    On("GET", Api2("estudiante", "filterGrado")),
    On("GET", Lit("api", Lit("tutorlegal", Lit("asistenciaHijo", Var(End))))),
    On("POST", Api2("auth", "logout"))
  ]

  /** `authorizeHttpRequests`, group by group in declared order. */
  const Groups: seq<(seq<Matcher>, Access)> := [
    (PublicEndpoints, PermitAll),
    (SelfAccessEndpoints, Authenticated),
    (AdministratorEndpoints, AnyRole({Admin})),
    (TeacherEndpoints, AnyRole({Admin, Profesor})),
    (TutorEndpoints, AnyRole({Admin, Profesor, Tutor}))
  ]

  /** A matcher accepts a request of the given method whose path has the given
      segments. */
  predicate MatcherAccepts(m: Matcher, httpMethod: string, segs: seq<string>)
  {
    (m.httpMethod.None? || m.httpMethod.value == httpMethod) && Match(m.pattern, segs)
  }

  predicate AnyAccepts(ms: seq<Matcher>, httpMethod: string, segs: seq<string>)
  {
    exists i :: 0 <= i < |ms| && MatcherAccepts(ms[i], httpMethod, segs)
  }

  /** The access of the first group with an accepting matcher; `anyRequest()`
      needs authentication. */
  function FirstMatch(groups: seq<(seq<Matcher>, Access)>, httpMethod: string, segs: seq<string>): (a: Access)
    ensures (exists g :: 0 <= g < |groups| && AnyAccepts(groups[g].0, httpMethod, segs) && a == groups[g].1
               && (forall h :: 0 <= h < g ==> !AnyAccepts(groups[h].0, httpMethod, segs)))
            || ((forall h :: 0 <= h < |groups| ==> !AnyAccepts(groups[h].0, httpMethod, segs)) && a == Authenticated)
  {
    if groups == [] then Authenticated
    else if AnyAccepts(groups[0].0, httpMethod, segs) then groups[0].1
    else
      var a := FirstMatch(groups[1..], httpMethod, segs);
      assert forall h :: 1 <= h < |groups| ==> groups[h] == groups[1..][h - 1];
      a
  }

  /** The access a request needs. A URI that does not start with a separator
      matches no pattern. */
  function RequiredAccess(httpMethod: string, uri: string): Access
  {
    if StartsWith(uri, "/") then FirstMatch(Groups, httpMethod, Segments(uri)) else Authenticated
  }

  // Facts about single matchers

  lemma Api2Accepts(a: string, b: string, x: string, y: string, rest: seq<string>)
    ensures Match(Api2(a, b), ["api", x, y] + rest) <==> a == x && b == y && rest == []
  {
    assert ["api", x, y] + rest == ["api"] + ([x] + ([y] + rest));
    LitStep("api", Lit(a, Lit(b, End)), "api", [x] + ([y] + rest));
    LitStep(a, Lit(b, End), x, [y] + rest);
    LitStep(b, End, y, rest);
  }

  /** A pattern whose first segment is not `x` rejects a path starting with `x`. */
  lemma NotUnderFirst(m: Matcher, httpMethod: string, x: string, segs: seq<string>)
    requires m.pattern.Lit? && m.pattern.seg != x
    ensures !MatcherAccepts(m, httpMethod, [x] + segs)
  {
    LitStep(m.pattern.seg, m.pattern.rest, x, segs);
  }

  /** A pattern under `/api` whose second segment is not `x` rejects a path
      starting with "api" and `x`. */
  lemma NotUnderSecond(m: Matcher, httpMethod: string, x: string, segs: seq<string>)
    requires m.pattern.Lit? && m.pattern.seg == "api" && m.pattern.rest.Lit? && m.pattern.rest.seg != x
    ensures !MatcherAccepts(m, httpMethod, ["api", x] + segs)
  {
    assert ["api", x] + segs == ["api"] + ([x] + segs);
    LitStep("api", m.pattern.rest, "api", [x] + segs);
    LitStep(m.pattern.rest.seg, m.pattern.rest.rest, x, segs);
  }

  /** One step of the first-match search. */
  lemma FirstMatchStep(groups: seq<(seq<Matcher>, Access)>, httpMethod: string, segs: seq<string>)
    requires groups != []
    ensures FirstMatch(groups, httpMethod, segs)
            == if AnyAccepts(groups[0].0, httpMethod, segs) then groups[0].1 else FirstMatch(groups[1..], httpMethod, segs)
  {
  }

  /** The administrator group decides a request the public and self-access groups
      pass over. */
  lemma AdminGroupDecides(httpMethod: string, segs: seq<string>, k: int)
    requires !AnyAccepts(PublicEndpoints, httpMethod, segs) && !AnyAccepts(SelfAccessEndpoints, httpMethod, segs)
    requires 0 <= k < |AdministratorEndpoints| && MatcherAccepts(AdministratorEndpoints[k], httpMethod, segs)
    ensures FirstMatch(Groups, httpMethod, segs) == AnyRole({Admin})
  {
    FirstMatchStep(Groups, httpMethod, segs);
    FirstMatchStep(Groups[1..], httpMethod, segs);
    FirstMatchStep(Groups[1..][1..], httpMethod, segs);
    assert Groups[1..][1..][0] == (AdministratorEndpoints, AnyRole({Admin}));
  }

  /** The public group ignores a path under `/api` whose second segment it does
      not name. */
  lemma PublicIgnores(httpMethod: string, x: string, segs: seq<string>)
    requires x != "auth" && x != "test" && x != "user"
    ensures !AnyAccepts(PublicEndpoints, httpMethod, ["api", x] + segs)
  {
    assert ["api", x] + segs == ["api"] + ([x] + segs);
    forall i | 0 <= i < |PublicEndpoints| ensures !MatcherAccepts(PublicEndpoints[i], httpMethod, ["api", x] + segs) {
      if i == 0 || i == 4 || i == 5 {
        NotUnderSecond(PublicEndpoints[i], httpMethod, x, segs);
      } else {
        NotUnderFirst(PublicEndpoints[i], httpMethod, "api", [x] + segs);
      }
    }
  }

  /** The self-access group ignores a path under `/api` whose second segment it
      does not name, and every method but GET. */
  lemma SelfAccessIgnores(httpMethod: string, x: string, segs: seq<string>)
    requires (x != "user" && x != "profesor" && x != "tutorlegal") || httpMethod != "GET"
    ensures !AnyAccepts(SelfAccessEndpoints, httpMethod, ["api", x] + segs)
  {
    forall i | 0 <= i < |SelfAccessEndpoints| ensures !MatcherAccepts(SelfAccessEndpoints[i], httpMethod, ["api", x] + segs) {
      if httpMethod == "GET" {
        NotUnderSecond(SelfAccessEndpoints[i], httpMethod, x, segs);
      }
    }
  }

  // ---------------------------------------------------------------------------
  // Decisions the order of the groups makes

  /** `POST /api/user/add` is open to everybody: the public group comes before the
      administrator group that also lists it. */
  lemma UserAddIsPublic()
    ensures FirstMatch(Groups, "POST", ["api", "user", "add"]) == PermitAll
  {
    Api2Accepts("user", "add", "user", "add", []);
    assert ["api", "user", "add"] + [] == ["api", "user", "add"];
    assert MatcherAccepts(PublicEndpoints[5], "POST", ["api", "user", "add"]);
    FirstMatchStep(Groups, "POST", ["api", "user", "add"]);
  }

  /** `POST /api/asistencia/add` needs the administrator: the administrator group
      lists it before the teacher group does. */
  lemma AsistenciaAddIsAdminOnly()
    ensures FirstMatch(Groups, "POST", ["api", "asistencia", "add"]) == AnyRole({Admin})
  {
    var segs := ["api", "asistencia", "add"];
    assert ["api", "asistencia"] + ["add"] == segs;
    PublicIgnores("POST", "asistencia", ["add"]);
    SelfAccessIgnores("POST", "asistencia", ["add"]);
    Api2Accepts("asistencia", "add", "asistencia", "add", []);
    assert segs + [] == segs;
    AdminGroupDecides("POST", segs, 10);
  }

  /** `GET /api/user/getAll` needs only authentication: the self-access pattern
      `/api/user/{id}` takes `getAll` for an id and is reached before the
      administrator entry for the same path, so that entry never decides. */
  lemma UserGetAllNeedsOnlyAuthentication()
    ensures MatcherAccepts(AdministratorEndpoints[0], "GET", ["api", "user", "getAll"])
    ensures FirstMatch(Groups, "GET", ["api", "user", "getAll"]) == Authenticated
  {
    var segs := ["api", "user", "getAll"];
    assert segs == ["api", "user"] + ["getAll"];
    forall i | 0 <= i < |PublicEndpoints| ensures !MatcherAccepts(PublicEndpoints[i], "GET", segs) {
      if i == 0 || i == 4 {
        NotUnderSecond(PublicEndpoints[i], "GET", "user", ["getAll"]);
      } else if i != 5 {
        NotUnderFirst(PublicEndpoints[i], "GET", "api", ["user", "getAll"]);
      }
    }
    assert segs == ["api"] + (["user"] + ["getAll"]);
    LitStep("api", Lit("user", Var(End)), "api", ["user"] + ["getAll"]);
    LitStep("user", Var(End), "user", ["getAll"]);
    assert ["getAll"] == ["getAll"] + [];
    VarStep(End, "getAll", []);
    assert MatcherAccepts(SelfAccessEndpoints[0], "GET", segs);
    Api2Accepts("user", "getAll", "user", "getAll", []);
    assert segs + [] == segs;
    FirstMatchStep(Groups, "GET", segs);
    FirstMatchStep(Groups[1..], "GET", segs);
  }

  /** `GET /api/profesor/{id}` needs only authentication, for any id: the
      self-access group is reached before the teacher group's pattern for
      everything under `/api/profesor`. */
  lemma ProfesorByIdNeedsOnlyAuthentication(id: string)
    ensures FirstMatch(Groups, "GET", ["api", "profesor", id]) == Authenticated
  {
    var segs := ["api", "profesor", id];
    assert ["api", "profesor"] + [id] == segs;
    PublicIgnores("GET", "profesor", [id]);
    assert segs == ["api"] + (["profesor"] + [id]);
    LitStep("api", Lit("profesor", Var(End)), "api", ["profesor"] + [id]);
    LitStep("profesor", Var(End), "profesor", [id]);
    assert [id] == [id] + [];
    VarStep(End, id, []);
    assert MatcherAccepts(SelfAccessEndpoints[1], "GET", segs);
    FirstMatchStep(Groups, "GET", segs);
    FirstMatchStep(Groups[1..], "GET", segs);
  }

  /** Every DELETE under `/api` needs the administrator. */
  lemma DeleteUnderApiIsAdminOnly(rest: seq<string>)
    ensures FirstMatch(Groups, "DELETE", ["api"] + rest) == AnyRole({Admin})
  {
    var segs := ["api"] + rest;
    forall i | 0 <= i < |PublicEndpoints| ensures !MatcherAccepts(PublicEndpoints[i], "DELETE", segs) {
      if i != 0 && i != 4 && i != 5 {
        NotUnderFirst(PublicEndpoints[i], "DELETE", "api", rest);
      }
    }
    AnyMatchesAll(End, rest);
    LitStep("api", AnySegs(End), "api", rest);
    assert MatcherAccepts(AdministratorEndpoints[6], "DELETE", segs);
    AdminGroupDecides("DELETE", segs, 6);
  }

  /** GET, POST, DELETE and PATCH anywhere under `/api/grado` need the
      administrator. */
  lemma GradoIsAdminOnly(httpMethod: string, rest: seq<string>)
    requires httpMethod == "GET" || httpMethod == "POST" || httpMethod == "DELETE" || httpMethod == "PATCH"
    ensures FirstMatch(Groups, httpMethod, ["api", "grado"] + rest) == AnyRole({Admin})
  {
    var segs := ["api", "grado"] + rest;
    PublicIgnores(httpMethod, "grado", rest);
    SelfAccessIgnores(httpMethod, "grado", rest);
    AnyMatchesAll(End, rest);
    assert segs == ["api"] + (["grado"] + rest);
    LitStep("api", Lit("grado", AnySegs(End)), "api", ["grado"] + rest);
    LitStep("grado", AnySegs(End), "grado", rest);
    var k := if httpMethod == "POST" then 12 else if httpMethod == "GET" then 13
             else if httpMethod == "DELETE" then 14 else 15;
    assert MatcherAccepts(AdministratorEndpoints[k], httpMethod, segs);
    AdminGroupDecides(httpMethod, segs, k);
  }

  /** A request no group accepts needs authentication. */
  lemma UnmatchedNeedsAuthentication(httpMethod: string, segs: seq<string>)
    requires forall g :: 0 <= g < |Groups| ==> !AnyAccepts(Groups[g].0, httpMethod, segs)
    ensures FirstMatch(Groups, httpMethod, segs) == Authenticated
  {
  }

  // ---------------------------------------------------------------------------
  // Endpoint key of the access metrics

  /** `path.replace("/", "_").replace("{", "").replace("}", "")`. */
  function EndpointKey(path: string): string
  {
    ReplaceAll(ReplaceAll(ReplaceAll(path, "/", "_"), "{", ""), "}", "")
  }

  /** The key character by character: a separator becomes an underscore and the
      braces go. */
  function KeyOf(path: string): string
  {
    if path == [] then []
    else (if path[0] == '/' then "_" else if path[0] == '{' || path[0] == '}' then "" else [path[0]]) + KeyOf(path[1..])
  }

  /** Replacing one character is a character-wise map. */
  function MapChar(s: string, c: char, rep: string): string
  {
    if s == [] then [] else (if s[0] == c then rep else [s[0]]) + MapChar(s[1..], c, rep)
  }

  lemma {:induction false} ReplaceCharIsMap(s: string, c: char, rep: string)
    ensures ReplaceAll(s, [c], rep) == MapChar(s, c, rep)
  {
    if s != [] {
      ReplaceCharIsMap(s[1..], c, rep);
      assert s[..1] == [s[0]];
      assert s[1..] == s[|[c]|..];
    }
  }

  lemma {:induction false} MapCharAppend(a: string, b: string, c: char, rep: string)
    ensures MapChar(a + b, c, rep) == MapChar(a, c, rep) + MapChar(b, c, rep)
  {
    if a == [] {
      assert a + b == b;
    } else {
      assert (a + b)[1..] == a[1..] + b;
      MapCharAppend(a[1..], b, c, rep);
    }
  }

  lemma {:induction false} KeyByCharacters(s: string)
    ensures MapChar(MapChar(MapChar(s, '/', "_"), '{', ""), '}', "") == KeyOf(s)
  {
    if s != [] {
      KeyByCharacters(s[1..]);
      var head := if s[0] == '/' then "_" else [s[0]];
      var t := MapChar(s[1..], '/', "_");
      MapCharAppend(head, t, '{', "");
      var head2 := MapChar(head, '{', "");
      var t2 := MapChar(t, '{', "");
      MapCharAppend(head2, t2, '}', "");
      assert MapChar(head, '{', "") == (if s[0] == '{' then "" else head) by {
        assert head[1..] == [];
      }
      if head2 != [] {
        assert head2[1..] == [];
      }
    }
  }

  /** The key is the character-wise rewriting, so it holds no separator and no
      brace, and a path without them only has its separators turned into
      underscores. */
  lemma EndpointKeyChars(path: string)
    ensures EndpointKey(path) == KeyOf(path)
    ensures forall i :: 0 <= i < |EndpointKey(path)| ==> EndpointKey(path)[i] !in {'/', '{', '}'}
  {
    ReplaceCharIsMap(path, '/', "_");
    assert "/" == ['/'] && "{" == ['{'] && "}" == ['}'];
    ReplaceCharIsMap(MapChar(path, '/', "_"), '{', "");
    ReplaceCharIsMap(MapChar(MapChar(path, '/', "_"), '{', ""), '}', "");
    KeyByCharacters(path);
    KeyOfClean(path);
  }

  lemma {:induction false} KeyOfClean(s: string)
    ensures forall i :: 0 <= i < |KeyOf(s)| ==> KeyOf(s)[i] !in {'/', '{', '}'}
  {
    if s != [] {
      KeyOfClean(s[1..]);
    }
  }
}
