// BlacklistTokenFilter: rejects requests whose token has been revoked. It keeps a
// local snapshot of the revoked tokens, replaced by the token service's set on
// every sync, and asks the service directly when the snapshot is more than a
// minute old.

module BlacklistTokenFilter {
  import opened Wrappers
  import opened Exceptions
  import opened BaseSecurityFilter
  import opened TokenExtractor
  import opened TokenService

  /** Resync period of the snapshot: 5 minutes. */
  const SyncInterval: int := 300000

  /** Age of the snapshot past which the service is asked directly: 1 minute. */
  const DirectLookupAge: int := 60000

  const InvalidatedText: string := "Token ha sido invalidado"

  /** The exception thrown for a revoked token. */
  function Revoked(): Exception
  {
    TokenInvalidatedException(InvalidatedText)
  }

  /** The filter's state and that of the token service. */
  datatype BlacklistState = BlacklistState(snapshot: set<string>, lastSyncTime: int, service: ServiceState)

  /** `syncBlacklist`: the snapshot becomes the service's set, as it stands after
      the service synchronised with the store. */
  function SyncSnapshot(st: BlacklistState, now: int, storeUp: bool): BlacklistState
  {
    var svc := Sync(st.service, now, storeUp);
    BlacklistState(svc.blacklist, now, svc)
  }

  /** `doFilterInternal(context)`: how the stage ends and the state afterwards.
      `syncUp` is whether the store answers a resync, `io` the store's answers to a
      direct lookup. */
  function BlacklistStage(st: BlacklistState, header: Option<string>, now: int, syncUp: bool, io: StoreIo)
    : (StageOutcome, BlacklistState)
  {
    var st1 := if now - st.lastSyncTime > SyncInterval then SyncSnapshot(st, now, syncUp) else st;
    var token := ExtractFromHeader(header);
    if token.None? then (ChainContinued, st1)
    else if token.value in st1.snapshot then (Threw(Revoked()), st1)
    else if now - st1.lastSyncTime > DirectLookupAge then
      var (found, svc) := BlacklistLookup(st1.service, token.value, now, io);
      if found then (Threw(Revoked()), st1.(snapshot := st1.snapshot + {token.value}, service := svc))
      else (ChainContinued, st1.(service := svc))
    else (ChainContinued, st1)
  }

  /** The filter object. */
  class BlacklistFilter {
    const tokenService: TokenServiceImpl
    var blacklistCache: set<string>
    var lastSyncTime: int

    function State(): BlacklistState
      reads this, tokenService
    {
      BlacklistState(blacklistCache, lastSyncTime, tokenService.State())
    }

    /** The constructor synchronises once. */
    constructor (tokenService: TokenServiceImpl, now: int, storeUp: bool)
      requires tokenService.Valid()
      modifies tokenService`blacklistCache, tokenService`lastBlacklistSync
      ensures tokenService.Valid() && this.tokenService == tokenService
      ensures State() == SyncSnapshot(BlacklistState({}, 0, old(tokenService.State())), now, storeUp)
    {
      this.tokenService := tokenService;
      blacklistCache := {};
      lastSyncTime := 0;
      new;
      SyncBlacklist(now, storeUp);
    }

    /** `syncBlacklist`: clear, then add the service's set. */
    method SyncBlacklist(now: int, storeUp: bool)
      requires tokenService.Valid()
      modifies this, tokenService`blacklistCache, tokenService`lastBlacklistSync
      ensures tokenService.Valid()
      ensures State() == SyncSnapshot(old(State()), now, storeUp)
    {
      var persistent := tokenService.GetAllBlacklistedTokens(now, storeUp);
      blacklistCache := {};
      blacklistCache := blacklistCache + persistent;
      lastSyncTime := now;
    }

    /** `addToBlacklist`. */
    method AddToBlacklist(token: string)
      modifies this
      ensures blacklistCache == old(blacklistCache) + {token} && lastSyncTime == old(lastSyncTime)
    {
      blacklistCache := blacklistCache + {token};
    }

    /** `doFilterInternal(context)`. */
    method DoFilterInternal(header: Option<string>, now: int, syncUp: bool, io: StoreIo) returns (o: StageOutcome)
      requires tokenService.Valid()
      modifies this, tokenService`blacklistCache, tokenService`lastBlacklistSync
      ensures tokenService.Valid()
      ensures (o, State()) == BlacklistStage(old(State()), header, now, syncUp, io)
    {
      var currentTime := now;
      if currentTime - lastSyncTime > SyncInterval {
        SyncBlacklist(now, syncUp);
      }
      var token := ExtractFromHeader(header);
      if token.Some? {
        var tokenValue := token.value;
        if tokenValue in blacklistCache {
          o := Threw(Revoked());
          return;
        }
        if currentTime - lastSyncTime > DirectLookupAge {
          var found := tokenService.IsTokenInBlacklist(tokenValue, now, io);
          if found {
            AddToBlacklist(tokenValue);
            o := Threw(Revoked());
            return;
          }
        }
      }
      o := ChainContinued;
    }

    /** The whole filter, with its bypass list and the funnel of the base filter. */
    method Filter(uri: string, header: Option<string>, now: int, stamp: string, syncUp: bool, io: StoreIo)
      returns (r: FilterResult)
      requires tokenService.Valid()
      modifies this, tokenService`blacklistCache, tokenService`lastBlacklistSync
      ensures tokenService.Valid()
      ensures AnyMatch(TokenFilterPublicPaths, uri) ==> r == Continued && State() == old(State())
      ensures !AnyMatch(TokenFilterPublicPaths, uri) ==>
        var (o, st) := BlacklistStage(old(State()), header, now, syncUp, io);
        State() == st && (o.ChainContinued? <==> r == Continued)
    {
      if AnyMatch(TokenFilterPublicPaths, uri) {
        r := Continued;
        return;
      }
      var o := DoFilterInternal(header, now, syncUp, io);
      r := DoFilter(o, stamp);
    }
  }

  // ---------------------------------------------------------------------------
  // Properties

  /** A snapshot more than five minutes old is replaced before the token is
      looked at; a younger one is kept. */
  lemma ResyncWhenStale(st: BlacklistState, header: Option<string>, now: int, syncUp: bool, io: StoreIo)
    ensures var st1 := BlacklistStage(st, header, now, syncUp, io).1;
      (now - st.lastSyncTime > SyncInterval ==> st1.lastSyncTime == now)
      && (now - st.lastSyncTime <= SyncInterval ==> st1.lastSyncTime == st.lastSyncTime)
  {
  }

  /** A token in the snapshot is rejected as invalidated and the chain does not
      continue. */
  lemma SnapshotTokenRejected(st: BlacklistState, t: string, now: int, syncUp: bool, io: StoreIo)
    requires now - st.lastSyncTime <= SyncInterval
    requires ExtractFromHeader(Some(BearerPrefix + t)) == Some(t) && t in st.snapshot
    ensures BlacklistStage(st, Some(BearerPrefix + t), now, syncUp, io) == (Threw(Revoked()), st)
  {
  }

  /** The service is asked only when the snapshot is more than a minute old at the
      request's start; a positive answer is added to the snapshot and rejects the
      request. With a fresher snapshot the service's state does not change. */
  lemma DirectLookupOnlyWhenOld(st: BlacklistState, header: Option<string>, now: int, syncUp: bool, io: StoreIo)
    requires now - st.lastSyncTime <= DirectLookupAge
    ensures BlacklistStage(st, header, now, syncUp, io).1 == st
    ensures BlacklistStage(st, header, now, syncUp, io).0.Threw? <==>
      ExtractFromHeader(header).Some? && ExtractFromHeader(header).value in st.snapshot
  {
  }

  /** A token the service reports as revoked joins the snapshot. */
  lemma DirectHitCached(st: BlacklistState, header: Option<string>, now: int, syncUp: bool, io: StoreIo)
    requires DirectLookupAge < now - st.lastSyncTime <= SyncInterval
    requires ExtractFromHeader(header).Some? && ExtractFromHeader(header).value !in st.snapshot
    requires BlacklistLookup(st.service, ExtractFromHeader(header).value, now, io).0
    ensures var (o, st1) := BlacklistStage(st, header, now, syncUp, io);
      o == Threw(Revoked()) && st1.snapshot == st.snapshot + {ExtractFromHeader(header).value}
  {
  }

  /** A sync replaces the snapshot: entries added locally and not known to the
      service are dropped, and the timestamp is the sync's time. */
  lemma SyncReplaces(st: BlacklistState, now: int, storeUp: bool, t: string)
    requires t in st.snapshot && t !in st.service.blacklist && t !in StoreTokens(st.service.redis)
    ensures t !in SyncSnapshot(st, now, storeUp).snapshot
    ensures SyncSnapshot(st, now, storeUp).lastSyncTime == now
    ensures SyncSnapshot(st, now, storeUp).snapshot == SyncSnapshot(st, now, storeUp).service.blacklist
  {
  }

  /** A request without a token always continues the chain. */
  lemma NoTokenContinues(st: BlacklistState, header: Option<string>, now: int, syncUp: bool, io: StoreIo)
    requires ExtractFromHeader(header).None?
    ensures BlacklistStage(st, header, now, syncUp, io).0 == ChainContinued
  {
  }

  /** A revoked token ends with a 401 TOKEN_INVALIDATED written by the funnel. */
  lemma RevokedIsUnauthorized()
    ensures FilterErrorHandler.Classify(Revoked()).status == Unauthorized
    ensures FilterErrorHandler.Classify(Revoked()).code == "TOKEN_INVALIDATED"
  {
  }
}
