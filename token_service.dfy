// TokenServiceImpl: the ordered verification pipeline for bearer tokens, the
// decoded-token cache, the local revocation set and its two-tier lookup against
// the key-value store.
//
// The JWT library is the constant `decode` of the service: for every raw token it
// says whether JWT.decode accepts it, which `sub` and `exp` it carries and whether
// the configured verifier (HMAC-256 signature, issuer "Foro Escolar") accepts it.
// Redis is a map from keys to a presence flag; each store call that may fail takes
// a boolean saying whether the store answered. The clock is the parameter `now`
// (milliseconds).

module TokenService {
  import opened Wrappers
  import opened JavaText
  import opened Exceptions

  /** What the JWT library reports about one raw token. */
  datatype DecodedJwt = DecodedJwt(subject: Option<string>, exp: Option<int>, wellFormed: bool, signatureOk: bool)

  const MaxCacheSize: nat := 10000
  const BlacklistSyncInterval: int := 60000
  const BlacklistPrefix: string := "blacklist:"

  /** Whether each store call of one operation succeeds. */
  datatype StoreIo = StoreIo(keysUp: bool, hasKeyUp: bool)

  /** The mutable state of the service, as a value. `pending` holds the tokens whose
      store write has been submitted but not yet run. */
  datatype ServiceState = ServiceState(
    tokenCache: map<string, DecodedJwt>,
    blacklist: set<string>,
    lastSync: int,
    redis: map<string, bool>,
    pending: seq<string>)

  /** `isTokenExpired`: an `exp` strictly before now. */
  predicate Expired(jwt: DecodedJwt, now: int)
  {
    jwt.exp.Some? && jwt.exp.value < now
  }

  /** The keys a `keys("blacklist:*")` scan returns. */
  function BlacklistKeys(redis: map<string, bool>): set<string>
  {
    set k | k in redis && StartsWith(k, BlacklistPrefix)
  }

  /** Each key with `replace("blacklist:", "")` applied. */
  function Stripped(keys: set<string>): set<string>
  {
    set k | k in keys :: ReplaceAll(k, BlacklistPrefix, "")
  }

  /** The tokens the store lists as revoked. */
  function StoreTokens(redis: map<string, bool>): set<string>
  {
    Stripped(BlacklistKeys(redis))
  }

  lemma StrippedAdd(keys: set<string>, key: string)
    ensures Stripped(keys + {key}) == Stripped(keys) + {ReplaceAll(key, BlacklistPrefix, "")}
  {
    var a := Stripped(keys + {key});
    var b := Stripped(keys) + {ReplaceAll(key, BlacklistPrefix, "")};
    forall x | x in a ensures x in b {
      var k :| k in keys + {key} && x == ReplaceAll(k, BlacklistPrefix, "");
      if k != key { assert k in keys; }
    }
  }

  /** The error every unexpected failure inside the pipeline is turned into. */
  const ProcessingError: Exception := TokenException("Error al procesar el token", TOKEN_INVALID)
  const EmptyTokenError: Exception := TokenException("Token vacío o nulo", TOKEN_INVALID)
  const ExpiredError: Exception := TokenExpiredException("El token ha expirado")
  const InvalidateError: Exception := TokenOperationException("Error al invalidar el token")

  // ---------------------------------------------------------------------------
  // Java's String.hashCode and the verifier index

  function ToInt32(x: int): (r: int)
    ensures -0x8000_0000 <= r < 0x8000_0000
    ensures (r - x) % 0x1_0000_0000 == 0
  {
    var m := x % 0x1_0000_0000;
    if m >= 0x8000_0000 then m - 0x1_0000_0000 else m
  }

  /** `String.hashCode()`: h = 31 * h + c over the characters, in 32-bit arithmetic. */
  function JavaHash(s: string): int
    decreases |s|
  {
    if s == [] then 0 else ToInt32(31 * JavaHash(s[..|s| - 1]) + s[|s| - 1] as int)
  }

  /** Java's `%`: the remainder takes the sign of the dividend. */
  function JavaRem(a: int, b: int): (r: int)
    requires b != 0
    ensures -(if b < 0 then -b else b) < r < (if b < 0 then -b else b)
    ensures a >= 0 ==> r >= 0
    ensures a <= 0 ==> r <= 0
  {
    var m := if b < 0 then -b else b;
    if a >= 0 then a % m else -((-a) % m)
  }

  /** `Math.abs(token.hashCode() % verifierPoolSize)`. */
  function VerifierIndex(token: string, poolSize: int): (i: int)
    requires poolSize > 0
    ensures 0 <= i < poolSize
  {
    var r := JavaRem(JavaHash(token), poolSize);
    if r < 0 then -r else r
  }

  // ---------------------------------------------------------------------------
  // Specification of each operation, on state values

  /** `syncBlacklistFromRedis`: a union with the store's entries, timestamped only
      when the store answered. */
  function Sync(s: ServiceState, now: int, up: bool): ServiceState
  {
    if up then s.(blacklist := s.blacklist + StoreTokens(s.redis), lastSync := now) else s
  }

  /** `isTokenInBlacklist`: the answer and the state afterwards. */
  function BlacklistLookup(s: ServiceState, token: string, now: int, io: StoreIo): (bool, ServiceState)
  {
    if token in s.blacklist then (true, s)
    else
      var s1 := if now - s.lastSync > BlacklistSyncInterval then Sync(s, now, io.keysUp) else s;
      if token in s1.blacklist then (true, s1)
      else if !io.hasKeyUp then (token in s1.blacklist, s1)
      else if BlacklistPrefix + token in s1.redis then (true, s1.(blacklist := s1.blacklist + {token}))
      else (false, s1)
  }

  datatype VerifyOutcome = Verified(jwt: DecodedJwt) | Rejected | NoVerifier

  /** `verifyToken` on an already trimmed token: the cache first, then a verifier of
      the pool; with an empty pool the `%` divides by zero. */
  function VerifyToken(cache: map<string, DecodedJwt>, decode: string -> DecodedJwt, poolSize: nat, trimmed: string): VerifyOutcome
  {
    if trimmed in cache then Verified(cache[trimmed])
    else if poolSize == 0 then NoVerifier
    else if decode(trimmed).signatureOk then Verified(decode(trimmed))
    else Rejected
  }

  /** `getUsernameFromToken`: the result and the state afterwards. */
  function UsernameFromToken(s: ServiceState, decode: string -> DecodedJwt, poolSize: nat,
                             token: Option<string>, now: int, io: StoreIo): (Result<string, Exception>, ServiceState)
  {
    if token.None? || Trim(token.value) == [] then (Err(EmptyTokenError), s)
    else
      var t := token.value;
      var pre := decode(Trim(t));
      if !pre.wellFormed then (Err(ProcessingError), s)
      else
        var (black, s1) := BlacklistLookup(s, t, now, io);
        if black then (Err(ProcessingError), s1)
        else if Expired(pre, now) then (Err(ExpiredError), s1)
        else
          match VerifyToken(s1.tokenCache, decode, poolSize, Trim(t))
          case Rejected => (Err(ExpiredError), s1)
          case NoVerifier => (Err(ProcessingError), s1)
          case Verified(jwt) =>
            var s2 := s1.(tokenCache := s1.tokenCache[t := jwt]);
            if jwt.subject.None? then (Err(ProcessingError), s2) else (Ok(jwt.subject.value), s2)
  }

  /** `validateToken(token, user)`, where `username` is the user's name. The second
      store flags are those of the blacklist lookup repeated inside the full check. */
  function ValidateToken(s: ServiceState, decode: string -> DecodedJwt, poolSize: nat, token: string,
                         username: string, now: int, io: StoreIo, io2: StoreIo): (bool, ServiceState)
  {
    var (black, s1) := BlacklistLookup(s, token, now, io);
    if black then (false, s1)
    else if token in s1.tokenCache then
      var cached := s1.tokenCache[token];
      if Expired(cached, now) then (false, s1.(tokenCache := s1.tokenCache - {token}))
      else (cached.subject == Some(username), s1)
    else
      var (r, s2) := UsernameFromToken(s1, decode, poolSize, Some(token), now, io2);
      (r.Ok? && r.value == username, s2)
  }

  /** `invalidateToken`: a structural check, then the local revocation, the cache
      eviction and the submission of the store write. */
  function Invalidate(s: ServiceState, decode: string -> DecodedJwt, token: Option<string>): (Result<(), Exception>, ServiceState)
  {
    if token.None? || !decode(Trim(token.value)).wellFormed then (Err(InvalidateError), s)
    else
      var t := token.value;
      (Ok(()), s.(blacklist := s.blacklist + {t}, tokenCache := s.tokenCache - {t}, pending := s.pending + [t]))
  }

  /** `addTokenToBlacklist` for the oldest submitted write; a failing store drops
      the write, as the source only logs the error. */
  function PersistHead(s: ServiceState, up: bool): ServiceState
    requires s.pending != []
  {
    var t := s.pending[0];
    s.(redis := if up then s.redis[BlacklistPrefix + t := true] else s.redis, pending := s.pending[1..])
  }

  /** The entries of the cache that have not expired. */
  function LiveEntries(cache: map<string, DecodedJwt>, now: int): map<string, DecodedJwt>
  {
    map k | k in cache && !Expired(cache[k], now) :: cache[k]
  }

  /** What `cleanupCaches` may leave behind. The keys dropped by the size cap are the
      first ones in the map's iteration order, which is unspecified, so the
      specification admits any choice of that many keys. */
  predicate CleanupOutcome(before: map<string, DecodedJwt>, after: map<string, DecodedJwt>, now: int)
  {
    if |before| <= MaxCacheSize then after == before
    else
      var live := LiveEntries(before, now);
      if |live| <= MaxCacheSize then after == live
      else after.Keys <= live.Keys && (forall k :: k in after ==> after[k] == live[k])
           && |after| == |live| - |live| / 4
  }

  /** Every cached entry is the verified decoding of its trimmed key. */
  predicate CacheSound(cache: map<string, DecodedJwt>, decode: string -> DecodedJwt)
  {
    forall k :: k in cache ==> cache[k] == decode(Trim(k)) && decode(Trim(k)).signatureOk
  }

  /** Dropping entries keeps the cache sound. */
  lemma CacheSoundSubmap(cache: map<string, DecodedJwt>, smaller: map<string, DecodedJwt>, decode: string -> DecodedJwt)
    requires CacheSound(cache, decode)
    requires smaller.Keys <= cache.Keys && forall k :: k in smaller ==> smaller[k] == cache[k]
    ensures CacheSound(smaller, decode)
  {
  }

  // ---------------------------------------------------------------------------
  // The service object

  class TokenServiceImpl {
    const decode: string -> DecodedJwt
    const poolSize: nat
    var tokenCache: map<string, DecodedJwt>
    var blacklistCache: set<string>
    var lastBlacklistSync: int
    var redis: map<string, bool>
    var pendingWrites: seq<string>

    function State(): ServiceState
      reads this
    {
      ServiceState(tokenCache, blacklistCache, lastBlacklistSync, redis, pendingWrites)
    }

    ghost predicate Valid()
      reads this
    {
      CacheSound(tokenCache, decode)
    }

    /** A freshly constructed service over the given store, before `initialize`. */
    constructor (decode: string -> DecodedJwt, poolSize: nat, redis: map<string, bool>)
      ensures Valid()
      ensures this.decode == decode && this.poolSize == poolSize
      ensures State() == ServiceState(map[], {}, 0, redis, [])
    {
      this.decode := decode;
      this.poolSize := poolSize;
      this.redis := redis;
      tokenCache := map[];
      blacklistCache := {};
      lastBlacklistSync := 0;
      pendingWrites := [];
    }

    /** `initialize`: the first synchronisation with the store (the verifier pool is
        the constant poolSize). */
    method Initialize(now: int, storeUp: bool)
      requires Valid()
      modifies this
      ensures Valid()
      ensures State() == Sync(old(State()), now, storeUp)
    {
      SyncBlacklistFromRedis(now, storeUp);
    }

    method SyncBlacklistFromRedis(now: int, storeUp: bool)
      requires Valid()
      modifies this`blacklistCache, this`lastBlacklistSync
      ensures Valid()
      ensures State() == Sync(old(State()), now, storeUp)
    {
      if !storeUp {
        return;
      }
      blacklistCache := AddStripped(blacklistCache, BlacklistKeys(redis));
      lastBlacklistSync := now;
    }

    /** The `forEach` over the store's keys: each key, its prefix removed, is added
        to the local list. */
    static method AddStripped(before: set<string>, keys: set<string>) returns (cache: set<string>)
      ensures cache == before + Stripped(keys)
    {
      cache := before;
      var remaining := keys;
      ghost var done: set<string> := {};
      while remaining != {}
        invariant remaining <= keys && done == keys - remaining
        invariant cache == before + Stripped(done)
        decreases |remaining|
      {
        var key :| key in remaining;
        StrippedAdd(done, key);
        cache := cache + {ReplaceAll(key, BlacklistPrefix, "")};
        remaining := remaining - {key};
        done := done + {key};
      }
      assert done == keys;
    }

    method IsTokenInBlacklist(token: string, now: int, io: StoreIo) returns (found: bool)
      requires Valid()
      modifies this`blacklistCache, this`lastBlacklistSync
      ensures Valid()
      ensures (found, State()) == BlacklistLookup(old(State()), token, now, io)
    {
      if token in blacklistCache {
        return true;
      }
      if now - lastBlacklistSync > BlacklistSyncInterval {
        SyncBlacklistFromRedis(now, io.keysUp);
      }
      if token in blacklistCache {
        return true;
      }
      if !io.hasKeyUp {
        return token in blacklistCache;
      }
      if BlacklistPrefix + token in redis {
        blacklistCache := blacklistCache + {token};
        return true;
      }
      return false;
    }

    method VerifyTokenCached(trimmed: string) returns (outcome: VerifyOutcome)
      requires Valid()
      ensures outcome == VerifyToken(tokenCache, decode, poolSize, trimmed)
    {
      if trimmed in tokenCache {
        return Verified(tokenCache[trimmed]);
      }
      if poolSize == 0 {
        return NoVerifier;
      }
      var index := VerifierIndex(trimmed, poolSize);
      var jwt := decode(trimmed);
      if jwt.signatureOk {
        return Verified(jwt);
      }
      return Rejected;
    }

    method GetUsernameFromToken(token: Option<string>, now: int, io: StoreIo) returns (r: Result<string, Exception>)
      requires Valid()
      modifies this`tokenCache, this`blacklistCache, this`lastBlacklistSync
      ensures Valid()
      ensures (r, State()) == UsernameFromToken(old(State()), decode, poolSize, token, now, io)
    {
      if token.None? || Trim(token.value) == [] {
        return Err(EmptyTokenError);
      }
      var t := token.value;
      var pre := decode(Trim(t));
      if !pre.wellFormed {
        return Err(ProcessingError);
      }
      var black := IsTokenInBlacklist(t, now, io);
      if black {
        return Err(ProcessingError);
      }
      if Expired(pre, now) {
        return Err(ExpiredError);
      }
      var outcome := VerifyTokenCached(Trim(t));
      match outcome {
        case Rejected =>
          return Err(ExpiredError);
        case NoVerifier =>
          return Err(ProcessingError);
        case Verified(jwt) =>
          TrimIsTrimmed(t);
          TrimIsTrimmed(Trim(t));
          tokenCache := tokenCache[t := jwt];
          if jwt.subject.None? {
            return Err(ProcessingError);
          }
          return Ok(jwt.subject.value);
      }
    }

    method ValidateTokenFor(token: string, username: string, now: int, io: StoreIo, io2: StoreIo) returns (valid: bool)
      requires Valid()
      modifies this`tokenCache, this`blacklistCache, this`lastBlacklistSync
      ensures Valid()
      ensures (valid, State()) == ValidateToken(old(State()), decode, poolSize, token, username, now, io, io2)
    {
      var black := IsTokenInBlacklist(token, now, io);
      if black {
        return false;
      }
      if token in tokenCache {
        var cached := tokenCache[token];
        if Expired(cached, now) {
          tokenCache := tokenCache - {token};
          return false;
        }
        return cached.subject == Some(username);
      }
      var r := GetUsernameFromToken(Some(token), now, io2);
      return r.Ok? && r.value == username;
    }

    method InvalidateToken(token: Option<string>) returns (r: Result<(), Exception>)
      requires Valid()
      modifies this`tokenCache, this`blacklistCache, this`pendingWrites
      ensures Valid()
      ensures (r, State()) == Invalidate(old(State()), decode, token)
    {
      if token.None? || !decode(Trim(token.value)).wellFormed {
        return Err(InvalidateError);
      }
      var t := token.value;
      blacklistCache := blacklistCache + {t};
      tokenCache := tokenCache - {t};
      pendingWrites := pendingWrites + [t];
      return Ok(());
    }

    /** The write task submitted by invalidateToken, run by a worker that is free to
        run it. */
    method RunPendingWrite(storeUp: bool)
      requires Valid() && pendingWrites != []
      modifies this`redis, this`pendingWrites
      ensures Valid()
      ensures State() == PersistHead(old(State()), storeUp)
    {
      var t := pendingWrites[0];
      if storeUp {
        redis := redis[BlacklistPrefix + t := true];
      }
      pendingWrites := pendingWrites[1..];
    }

    method GetAllBlacklistedTokens(now: int, storeUp: bool) returns (tokens: set<string>)
      requires Valid()
      modifies this`blacklistCache, this`lastBlacklistSync
      ensures Valid()
      ensures State() == Sync(old(State()), now, storeUp)
      ensures tokens == blacklistCache
    {
      SyncBlacklistFromRedis(now, storeUp);
      tokens := blacklistCache;
    }

    method CleanupCaches(now: int)
      requires Valid()
      modifies this`tokenCache
      ensures Valid()
      ensures CleanupOutcome(old(tokenCache), tokenCache, now)
    {
      if |tokenCache| <= MaxCacheSize {
        return;
      }
      var live := RemoveExpired(tokenCache, now);
      var cache := live;
      if |live| > MaxCacheSize {
        cache := DropQuarter(live);
      }
      CacheSoundSubmap(tokenCache, cache, decode);
      tokenCache := cache;
    }

    /** `removeIf` over the entries: every expired entry goes. */
    static method RemoveExpired(before: map<string, DecodedJwt>, now: int) returns (cache: map<string, DecodedJwt>)
      ensures cache == LiveEntries(before, now)
    {
      cache := before;
      var remaining := cache.Keys;
      while remaining != {}
        invariant remaining <= before.Keys
        invariant cache.Keys <= before.Keys
        invariant forall k :: k in cache ==> cache[k] == before[k]
        invariant forall k :: k in remaining ==> k in cache
        invariant forall k :: k in before && k !in remaining ==> (k in cache <==> !Expired(before[k], now))
        decreases |remaining|
      {
        var key :| key in remaining;
        if Expired(cache[key], now) {
          cache := cache - {key};
        }
        remaining := remaining - {key};
      }
    }

    /** The size cap: a quarter of the entries, taken in iteration order, go. */
    static method DropQuarter(live: map<string, DecodedJwt>) returns (cache: map<string, DecodedJwt>)
      ensures cache.Keys <= live.Keys && (forall k :: k in cache ==> cache[k] == live[k])
      ensures |cache| == |live| - |live| / 4
    {
      cache := live;
      var toRemove := |cache| / 4;
      var i := 0;
      while i < toRemove
        invariant 0 <= i <= toRemove
        invariant cache.Keys <= live.Keys
        invariant forall k :: k in cache ==> cache[k] == live[k]
        invariant |cache| == |live| - i
      {
        var key :| key in cache;
        cache := cache - {key};
        i := i + 1;
      }
    }
  }
}
