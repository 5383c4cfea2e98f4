// JwtAuthenticationFilter: authenticates a request from its bearer token. It keeps
// an access-ordered cache from token to loaded user and a negative cache from
// token to the time it was found invalid, and it asks the token service only for
// tokens in neither. The security context is represented by what the filter does
// to it; the user-details service is a map from user name to user.

module JwtAuthenticationFilter {
  import opened Wrappers
  import opened JavaText
  import opened Exceptions
  import opened FilterErrorHandler
  import opened AntPath
  import opened BaseSecurityFilter
  import opened TokenExtractor
  import opened TokenService
  import opened AccessOrderCache

  /** A loaded user: its name and granted authorities. */
  datatype UserDetails = UserDetails(username: string, authorities: set<string>)

  /** What the filter does to the security context. */
  datatype ContextChange = Untouched | SetTo(user: UserDetails) | Cleared

  /** The ending of the stage together with its effect on the context. */
  datatype JwtOutcome = JwtOutcome(stage: StageOutcome, context: ContextChange)

  /** The filter's state and that of the token service it calls. */
  datatype JwtState = JwtState(entries: seq<(string, UserDetails)>, invalid: map<string, int>, service: ServiceState)

  /** How long a token stays in the negative cache: 30 minutes. */
  const InvalidTokenTtl: int := 1800000

  const ProcessingPrefix: string := "Error al procesar el token de autenticación: "

  /** The exception of `loadUserByUsername` for an unknown user. The
      `UserDetailsService` implementation is not part of this model; its message
      is taken to be the username. */
  function UserNotFound(username: string): Exception
  {
    UsernameNotFound(username)
  }

  /** `processToken`'s rethrow of a failure that is not an expiry. */
  function Rethrown(e: Exception): Exception
  {
    JwtAuthenticationException(ConcatNullable(ProcessingPrefix, Message(e)))
  }

  /** `doFilterInternal(context)`: the outcome and the state afterwards. `now` is
      the clock in milliseconds and `stamp` the timestamp text of a response. */
  function FilterStage(st: JwtState, decode: string -> DecodedJwt, poolSize: nat, users: map<string, UserDetails>,
                       authenticated: bool, header: Option<string>, uri: string, now: int, stamp: string,
                       io: StoreIo): (JwtOutcome, JwtState)
  {
    var token := ExtractFromHeader(header);
    if authenticated || token.None? || token.value in st.invalid then (JwtOutcome(ChainContinued, Untouched), st)
    else
      var t := token.value;
      var (hit, entries1) := LruGet(st.entries, t);
      if hit.Some? then (JwtOutcome(ChainContinued, SetTo(hit.value)), st.(entries := entries1))
      else
        var (r, service1) := UsernameFromToken(st.service, decode, poolSize, Some(t), now, io);
        var failed := JwtState(entries1, st.invalid[t := now], service1);
        if r.Err? && IsTokenExpired(r.error) then
          (JwtOutcome(Responded(HandleTokenExpired(Some(uri), stamp)), Cleared), failed)
        else if r.Err? then (JwtOutcome(Threw(Rethrown(r.error)), Untouched), failed)
        else if r.value !in users then (JwtOutcome(Threw(Rethrown(UserNotFound(r.value))), Untouched), failed)
        else
          var user := users[r.value];
          (JwtOutcome(ChainContinued, SetTo(user)), JwtState(LruPut(entries1, t, user), st.invalid, service1))
  }

  /** `cleanInvalidTokenCache`: the entries at most 30 minutes old. */
  function Swept(invalid: map<string, int>, now: int): map<string, int>
  {
    map k | k in invalid && now - invalid[k] <= InvalidTokenTtl :: invalid[k]
  }

  /** The filter object. */
  class JwtFilter {
    const tokenService: TokenServiceImpl
    const users: map<string, UserDetails>
    const cache: LinkedCache<UserDetails>
    var invalidTokenCache: map<string, int>

    ghost predicate Valid()
      reads this, cache, tokenService
    {
      cache.Valid() && tokenService.Valid()
    }

    function State(): JwtState
      reads this, cache, tokenService
    {
      JwtState(cache.entries, invalidTokenCache, tokenService.State())
    }

    constructor (tokenService: TokenServiceImpl, users: map<string, UserDetails>)
      requires tokenService.Valid()
      ensures Valid() && this.tokenService == tokenService && this.users == users
      ensures cache.entries == [] && invalidTokenCache == map[] && fresh(cache)
      ensures tokenService.State() == old(tokenService.State())
    {
      this.tokenService := tokenService;
      this.users := users;
      cache := new LinkedCache<UserDetails>();
      invalidTokenCache := map[];
    }

    /** `doFilterInternal(context)`. */
    method DoFilterInternal(authenticated: bool, header: Option<string>, uri: string, now: int, stamp: string,
                            io: StoreIo) returns (o: JwtOutcome)
      requires Valid()
      modifies this, cache, tokenService
      ensures Valid()
      ensures (o, State()) == FilterStage(old(State()), tokenService.decode, tokenService.poolSize, users,
                                          authenticated, header, uri, now, stamp, io)
    {
      var token := ExtractFromHeader(header);
      if authenticated || token.None? || token.value in invalidTokenCache {
        o := JwtOutcome(ChainContinued, Untouched);
        return;
      }
      var t := token.value;
      var hit := cache.Get(t);
      if hit.Some? {
        o := JwtOutcome(ChainContinued, SetTo(hit.value));
        return;
      }
      var r := tokenService.GetUsernameFromToken(Some(t), now, io);
      if r.Err? {
        invalidTokenCache := invalidTokenCache[t := now];
        if IsTokenExpired(r.error) {
          o := JwtOutcome(Responded(HandleTokenExpired(Some(uri), stamp)), Cleared);
        } else {
          o := JwtOutcome(Threw(Rethrown(r.error)), Untouched);
        }
      } else if r.value !in users {
        invalidTokenCache := invalidTokenCache[t := now];
        o := JwtOutcome(Threw(Rethrown(UserNotFound(r.value))), Untouched);
      } else {
        cache.Put(t, users[r.value]);
        o := JwtOutcome(ChainContinued, SetTo(users[r.value]));
      }
    }

    /** The whole filter: public paths skip it, and the funnel of the base filter
        answers what the stage threw. */
    method Filter(authenticated: bool, header: Option<string>, uri: string, now: int, stamp: string,
                  io: StoreIo) returns (r: FilterResult, change: ContextChange)
      requires Valid()
      modifies this, cache, tokenService
      ensures Valid()
      ensures AnyMatch(TokenFilterPublicPaths, uri) ==> r == Continued && change == Untouched && State() == old(State())
      ensures !AnyMatch(TokenFilterPublicPaths, uri) ==>
        var (o, st) := FilterStage(old(State()), tokenService.decode, tokenService.poolSize, users,
                                   authenticated, header, uri, now, stamp, io);
        State() == st && change == o.context
        && (o.stage.ChainContinued? ==> r == Continued)
        && (o.stage.Responded? ==> r == Wrote(o.stage.w))
        && (o.stage.Threw? ==> r.Wrote? && r.w.httpStatus == Classify(o.stage.e).status
                                && r.w.body.details == ErrorDetails(o.stage.e, Some(FunnelInfo(o.stage.e))))
    {
      if AnyMatch(TokenFilterPublicPaths, uri) {
        r, change := Continued, Untouched;
        return;
      }
      var o := DoFilterInternal(authenticated, header, uri, now, stamp, io);
      r := DoFilter(o.stage, stamp);
      change := o.context;
    }

    /** `cleanInvalidTokenCache`: `removeIf` over the entries. */
    method CleanInvalidTokenCache(now: int)
      modifies this
      ensures invalidTokenCache == Swept(old(invalidTokenCache), now)
    {
      ghost var original := invalidTokenCache;
      var toVisit := invalidTokenCache.Keys;
      while toVisit != {}
        invariant toVisit <= original.Keys
        invariant invalidTokenCache == map k | k in original && (k in toVisit || now - original[k] <= InvalidTokenTtl) :: original[k]
        decreases |toVisit|
      {
        var k :| k in toVisit;
        if now - invalidTokenCache[k] > InvalidTokenTtl {
          invalidTokenCache := invalidTokenCache - {k};
        }
        toVisit := toVisit - {k};
      }
    }
  }

  // ---------------------------------------------------------------------------
  // Properties

  /** An already authenticated request, a request without a token and a token
      already known to be invalid all pass on with no state change and no call to
      the token service. */
  lemma PassThroughCases(st: JwtState, decode: string -> DecodedJwt, poolSize: nat, users: map<string, UserDetails>,
                         authenticated: bool, header: Option<string>, uri: string, now: int, stamp: string, io: StoreIo)
    requires authenticated || ExtractFromHeader(header).None? || ExtractFromHeader(header).value in st.invalid
    ensures FilterStage(st, decode, poolSize, users, authenticated, header, uri, now, stamp, io)
            == (JwtOutcome(ChainContinued, Untouched), st)
  {
  }

  /** A cached token authenticates its cached user without the token service: no
      revocation or expiry check happens on a hit. */
  lemma CacheHitSkipsService(st: JwtState, decode: string -> DecodedJwt, poolSize: nat, users: map<string, UserDetails>,
                             header: Option<string>, uri: string, now: int, stamp: string, io: StoreIo)
    requires DistinctKeys(st.entries)
    requires ExtractFromHeader(header).Some? && ExtractFromHeader(header).value !in st.invalid
    requires ExtractFromHeader(header).value in Keys(st.entries)
    ensures var (o, st1) := FilterStage(st, decode, poolSize, users, false, header, uri, now, stamp, io);
      o.stage == ChainContinued && o.context.SetTo? && (ExtractFromHeader(header).value, o.context.user) in st.entries
      && st1.service == st.service && st1.invalid == st.invalid
  {
    LruGetHit(st.entries, ExtractFromHeader(header).value);
  }

  /** An expired token is recorded as invalid, the context is cleared and the
      expired-session response is written instead of continuing the chain. */
  lemma ExpiredTokenAnswered(st: JwtState, decode: string -> DecodedJwt, poolSize: nat, users: map<string, UserDetails>,
                             t: string, uri: string, now: int, stamp: string, io: StoreIo)
    requires t !in st.invalid && t !in Keys(st.entries)
    requires UsernameFromToken(st.service, decode, poolSize, Some(t), now, io).0 == Err(ExpiredError)
    ensures var (o, st1) := FilterStage(st, decode, poolSize, users, false, Some(BearerPrefix + t), uri, now, stamp, io);
      ExtractFromHeader(Some(BearerPrefix + t)) == Some(t) ==>
        o == JwtOutcome(Responded(HandleTokenExpired(Some(uri), stamp)), Cleared) && st1.invalid == st.invalid[t := now]
  {
  }

  /** Any other failure of the token service is recorded and rethrown as a
      JwtAuthenticationException carrying the original message. */
  lemma OtherFailureRethrown(st: JwtState, decode: string -> DecodedJwt, poolSize: nat, users: map<string, UserDetails>,
                             header: Option<string>, uri: string, now: int, stamp: string, io: StoreIo)
    requires ExtractFromHeader(header).Some?
    requires var t := ExtractFromHeader(header).value;
      t !in st.invalid && Find(st.entries, t).None?
      && var r := UsernameFromToken(st.service, decode, poolSize, Some(t), now, io).0;
         r.Err? && !IsTokenExpired(r.error)
    ensures var t := ExtractFromHeader(header).value;
      var (o, st1) := FilterStage(st, decode, poolSize, users, false, header, uri, now, stamp, io);
      var e := UsernameFromToken(st.service, decode, poolSize, Some(t), now, io).0.error;
      o == JwtOutcome(Threw(JwtAuthenticationException(ConcatNullable(ProcessingPrefix, Message(e)))), Untouched)
      && t in st1.invalid && st1.invalid[t] == now
  {
  }

  /** A miss that the token service accepts caches the loaded user, which the next
      request with the same token finds without calling the service again. */
  lemma AcceptedTokenCached(st: JwtState, decode: string -> DecodedJwt, poolSize: nat, users: map<string, UserDetails>,
                            header: Option<string>, uri: string, now: int, stamp: string, io: StoreIo,
                            now2: int, io2: StoreIo)
    requires DistinctKeys(st.entries) && |st.entries| <= Capacity
    requires ExtractFromHeader(header).Some?
    requires var t := ExtractFromHeader(header).value;
      t !in st.invalid && t !in Keys(st.entries)
      && var r := UsernameFromToken(st.service, decode, poolSize, Some(t), now, io).0;
         r.Ok? && r.value in users
    ensures var (o, st1) := FilterStage(st, decode, poolSize, users, false, header, uri, now, stamp, io);
      var user := users[UsernameFromToken(st.service, decode, poolSize, Some(ExtractFromHeader(header).value), now, io).0.value];
      o == JwtOutcome(ChainContinued, SetTo(user)) && |st1.entries| <= Capacity
      && var (o2, st2) := FilterStage(st1, decode, poolSize, users, false, header, uri, now2, stamp, io2);
         o2 == JwtOutcome(ChainContinued, SetTo(user)) && st2.service == st1.service
  {
    var t := ExtractFromHeader(header).value;
    var r := UsernameFromToken(st.service, decode, poolSize, Some(t), now, io).0;
    LruPutBounded(st.entries, t, users[r.value]);
    PutThenGet(st.entries, t, users[r.value]);
  }

  /** The token cache never holds more than 1000 entries. */
  lemma CacheStaysBounded(st: JwtState, decode: string -> DecodedJwt, poolSize: nat, users: map<string, UserDetails>,
                          authenticated: bool, header: Option<string>, uri: string, now: int, stamp: string, io: StoreIo)
    requires DistinctKeys(st.entries) && |st.entries| <= Capacity
    ensures var st1 := FilterStage(st, decode, poolSize, users, authenticated, header, uri, now, stamp, io).1;
      DistinctKeys(st1.entries) && |st1.entries| <= Capacity
  {
    var token := ExtractFromHeader(header);
    if !(authenticated || token.None? || token.value in st.invalid) {
      var t := token.value;
      LruGetHit(st.entries, t);
      var entries1 := LruGet(st.entries, t).1;
      assert |entries1| == |st.entries| by {
        assert |multiset(entries1)| == |multiset(st.entries)|;
      }
      var r := UsernameFromToken(st.service, decode, poolSize, Some(t), now, io).0;
      if r.Ok? && r.value in users {
        LruPutBounded(entries1, t, users[r.value]);
      }
    }
  }

  /** The sweep removes exactly the entries older than 30 minutes and keeps the
      time of the others; sweeping again at the same time changes nothing. */
  lemma SweepExact(invalid: map<string, int>, now: int, k: string)
    ensures k in Swept(invalid, now) <==> k in invalid && now - invalid[k] <= InvalidTokenTtl
    ensures k in Swept(invalid, now) ==> Swept(invalid, now)[k] == invalid[k]
    ensures Swept(Swept(invalid, now), now) == Swept(invalid, now)
  {
  }

  /** The token the filter hands to the service has nothing to trim, so the
      service's cache, which is written under the untrimmed token and read under
      the trimmed one, finds it again. */
  lemma FilterTokensAreTrimmed(header: Option<string>)
    requires ExtractFromHeader(header).Some?
    ensures Trim(ExtractFromHeader(header).value) == ExtractFromHeader(header).value
  {
    TrimIsTrimmed(ExtractFromHeader(header).value);
  }
}
