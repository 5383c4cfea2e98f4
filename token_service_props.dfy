// Properties of the token pipeline specification in TokenService.

module TokenServiceProperties {
  import opened Wrappers
  import opened JavaText
  import opened Exceptions
  import opened TokenService

  /** Both error kinds the catch-all produces carry TOKEN_INVALID. */
  predicate IsInvalidTokenError(r: Result<string, Exception>)
  {
    r.Err? && r.error.Base? && r.error.kind.TokenK? && r.error.errorCode == TOKEN_INVALID
  }

  // ---------------------------------------------------------------------------
  // getUsernameFromToken

  /** A null or blank token is rejected with TOKEN_INVALID before the decoder, the
      cache or the store is consulted: the outcome is the same for every decoder,
      pool, clock and store answer, and nothing changes. */
  lemma BlankTokenRejectedFirst(s: ServiceState, decode: string -> DecodedJwt, decode2: string -> DecodedJwt,
                                poolSize: nat, poolSize2: nat, token: Option<string>, now: int, now2: int, io: StoreIo, io2: StoreIo)
    requires token.None? || AllTrimChars(token.value)
    ensures UsernameFromToken(s, decode, poolSize, token, now, io) == (Err(EmptyTokenError), s)
    ensures UsernameFromToken(s, decode, poolSize, token, now, io) == UsernameFromToken(s, decode2, poolSize2, token, now2, io2)
    ensures IsInvalidTokenError(Err(EmptyTokenError))
  {
    if token.Some? {
      TrimEmptyIffAllTrimChars(token.value);
    }
  }

  /** A token JWT.decode rejects never reaches the blacklist or the store: the
      outcome does not depend on the store, the clock or the store answers, and it is
      TOKEN_INVALID rather than TOKEN_MALFORMED. */
  lemma MalformedNeverReachesStore(s: ServiceState, redis2: map<string, bool>, decode: string -> DecodedJwt,
                                   poolSize: nat, t: string, now: int, now2: int, io: StoreIo, io2: StoreIo)
    requires Trim(t) != [] && !decode(Trim(t)).wellFormed
    ensures UsernameFromToken(s, decode, poolSize, Some(t), now, io) == (Err(ProcessingError), s)
    ensures UsernameFromToken(s.(redis := redis2), decode, poolSize, Some(t), now2, io2).0 == Err(ProcessingError)
    ensures IsInvalidTokenError(Err(ProcessingError))
  {
  }

  /** A revoked token is reported as TOKEN_INVALID even when it has also expired,
      since the blacklist is consulted before the expiry. */
  lemma RevocationReportedBeforeExpiry(s: ServiceState, decode: string -> DecodedJwt, poolSize: nat,
                                       t: string, now: int, io: StoreIo)
    requires Trim(t) != [] && decode(Trim(t)).wellFormed
    requires BlacklistLookup(s, t, now, io).0
    ensures UsernameFromToken(s, decode, poolSize, Some(t), now, io).0 == Err(ProcessingError)
  {
  }

  /** An expired token that is not revoked is rejected as expired even when its
      trimmed form is in the cache, since the expiry is checked before the cache. */
  lemma ExpiryCheckedBeforeCache(s: ServiceState, decode: string -> DecodedJwt, poolSize: nat,
                                 t: string, now: int, io: StoreIo)
    requires Trim(t) != [] && decode(Trim(t)).wellFormed && Expired(decode(Trim(t)), now)
    requires !BlacklistLookup(s, t, now, io).0
    ensures UsernameFromToken(s, decode, poolSize, Some(t), now, io).0 == Err(ExpiredError)
    ensures IsTokenExpired(ExpiredError)
  {
  }

  /** Any rejection by the verifier surfaces as TokenExpiredException. */
  lemma VerifierRejectionSurfacesAsExpired(s: ServiceState, decode: string -> DecodedJwt, poolSize: nat,
                                           t: string, now: int, io: StoreIo)
    requires Trim(t) != [] && decode(Trim(t)).wellFormed && !Expired(decode(Trim(t)), now)
    requires !BlacklistLookup(s, t, now, io).0
    requires Trim(t) !in s.tokenCache && poolSize > 0 && !decode(Trim(t)).signatureOk
    ensures UsernameFromToken(s, decode, poolSize, Some(t), now, io).0 == Err(ExpiredError)
  {
  }

  /** The exact acceptance condition: decodable, not revoked, not expired, accepted by
      the cache or a verifier, and carrying a subject. On success the token is cached
      under its untrimmed form and the cached subject is the one returned. */
  lemma UsernameAcceptedExactly(s: ServiceState, decode: string -> DecodedJwt, poolSize: nat,
                                t: string, now: int, io: StoreIo)
    requires CacheSound(s.tokenCache, decode)
    ensures var (r, s2) := UsernameFromToken(s, decode, poolSize, Some(t), now, io);
      r.Ok? <==>
        (Trim(t) != [] && decode(Trim(t)).wellFormed && !BlacklistLookup(s, t, now, io).0
         && !Expired(decode(Trim(t)), now)
         && (Trim(t) in s.tokenCache || (poolSize > 0 && decode(Trim(t)).signatureOk))
         && decode(Trim(t)).subject.Some?)
    ensures var (r, s2) := UsernameFromToken(s, decode, poolSize, Some(t), now, io);
      r.Ok? ==> t in s2.tokenCache && s2.tokenCache[t].subject == Some(r.value)
                && decode(Trim(t)).subject == Some(r.value)
  {
    TrimIsTrimmed(t);
    TrimIsTrimmed(Trim(t));
  }

  /** The pipeline only ever caches verified decodings of the token's trimmed form. */
  lemma UsernamePreservesCacheSound(s: ServiceState, decode: string -> DecodedJwt, poolSize: nat,
                                    token: Option<string>, now: int, io: StoreIo)
    requires CacheSound(s.tokenCache, decode)
    ensures CacheSound(UsernameFromToken(s, decode, poolSize, token, now, io).1.tokenCache, decode)
  {
    if token.Some? && Trim(token.value) != [] && decode(Trim(token.value)).wellFormed {
      var t := token.value;
      TrimIsTrimmed(t);
      TrimIsTrimmed(Trim(t));
      var s1 := BlacklistLookup(s, t, now, io).1;
      assert s1.tokenCache == s.tokenCache;
      var v := VerifyToken(s1.tokenCache, decode, poolSize, Trim(t));
      assert v.Verified? ==> v.jwt == decode(Trim(t)) && v.jwt.signatureOk;
    }
  }

  /** After a successful check of a token with nothing to trim, a later check of the
      same token that is neither revoked nor expired is answered from the cache: it
      succeeds with the same subject for every pool size, including an empty pool
      that would make the verifier path fail. */
  lemma CacheHitSkipsVerifier(s: ServiceState, decode: string -> DecodedJwt, poolSize: nat, poolSize2: nat,
                              t: string, now: int, now2: int, io: StoreIo, io2: StoreIo)
    requires IsTrimmed(t)
    requires UsernameFromToken(s, decode, poolSize, Some(t), now, io).0.Ok?
    requires var s2 := UsernameFromToken(s, decode, poolSize, Some(t), now, io).1;
      !BlacklistLookup(s2, t, now2, io2).0 && !Expired(decode(t), now2)
    ensures var (r, s2) := UsernameFromToken(s, decode, poolSize, Some(t), now, io);
      UsernameFromToken(s2, decode, poolSize2, Some(t), now2, io2).0 == r
  {
    TrimIsTrimmed(t);
    var (r, s2) := UsernameFromToken(s, decode, poolSize, Some(t), now, io);
    assert t in s2.tokenCache;
    var (b, s3) := BlacklistLookup(s2, t, now2, io2);
    assert s3.tokenCache == s2.tokenCache;
    assert VerifyToken(s3.tokenCache, decode, poolSize2, t) == Verified(s2.tokenCache[t]);
  }

  // ---------------------------------------------------------------------------
  // The blacklist lookup

  /** A local hit answers true without any store access: the same outcome for every
      store content and every store answer, and no state change. */
  lemma LocalHitNoStoreAccess(s: ServiceState, redis2: map<string, bool>, t: string,
                              now: int, io: StoreIo, io2: StoreIo)
    requires t in s.blacklist
    ensures BlacklistLookup(s, t, now, io) == (true, s)
    ensures BlacklistLookup(s.(redis := redis2), t, now, io2) == (true, s.(redis := redis2))
  {
  }

  /** The lookup touches only the blacklist and the sync time. The blacklist only
      grows, the sync time moves only when a sync was due and the store answered,
      and a token found remotely is then held locally. */
  lemma LookupEffects(s: ServiceState, t: string, now: int, io: StoreIo)
    ensures var (found, s2) := BlacklistLookup(s, t, now, io);
      s2.tokenCache == s.tokenCache && s2.redis == s.redis && s2.pending == s.pending
      && s.blacklist <= s2.blacklist
      && (s2.lastSync != s.lastSync ==> now - s.lastSync > BlacklistSyncInterval && io.keysUp && s2.lastSync == now)
      && (found <==> t in s2.blacklist)
  {
  }

  /** When the direct store query fails the answer falls back to the local set:
      the token is reported only if the local set, after any due sync, has it. */
  lemma StoreFailureFailsOpen(s: ServiceState, t: string, now: int, io: StoreIo)
    requires !io.hasKeyUp
    ensures var s1 := if now - s.lastSync > BlacklistSyncInterval then Sync(s, now, io.keysUp) else s;
      BlacklistLookup(s, t, now, io).0 == (t in s1.blacklist)
  {
  }

  /** When everything answers, the lookup agrees with the union of the local set and
      the store's entries if a sync is due, and otherwise with the local set and the
      direct key query. */
  lemma LookupWithStoreUp(s: ServiceState, t: string, now: int)
    ensures BlacklistLookup(s, t, now, StoreIo(true, true)).0 ==
      (t in s.blacklist
       || (now - s.lastSync > BlacklistSyncInterval && t in StoreTokens(s.redis))
       || BlacklistPrefix + t in s.redis)
  {
  }

  /** The sync is a pure union and its timestamp advances only on success. */
  lemma SyncIsUnion(s: ServiceState, now: int, up: bool)
    ensures s.blacklist <= Sync(s, now, up).blacklist
    ensures up ==> Sync(s, now, up).blacklist == s.blacklist + StoreTokens(s.redis) && Sync(s, now, up).lastSync == now
    ensures !up ==> Sync(s, now, up) == s
  {
  }

  /** A revocation written to the store under the prefix is picked up by a later
      sync, as long as the token does not itself contain the prefix (a JWT has no
      ':' at all). */
  lemma {:induction false} PersistedRevocationSyncs(redis: map<string, bool>, t: string)
    requires !Contains(t, BlacklistPrefix)
    ensures t in StoreTokens(redis[BlacklistPrefix + t := true])
  {
    var k := BlacklistPrefix + t;
    assert k[..|BlacklistPrefix|] == BlacklistPrefix;
    assert k in BlacklistKeys(redis[k := true]);
    StripPrefix(BlacklistPrefix, t);
    assert ReplaceAll(k, BlacklistPrefix, "") == t;
  }

  // ---------------------------------------------------------------------------
  // invalidateToken and validateToken

  /** A token rejected by JWT.decode is answered with TokenOperationException and
      changes nothing. */
  lemma InvalidateMalformedChangesNothing(s: ServiceState, decode: string -> DecodedJwt, t: string)
    requires !decode(Trim(t)).wellFormed
    ensures Invalidate(s, decode, Some(t)) == (Err(InvalidateError), s)
    ensures InvalidateError.Base? && InvalidateError.kind.TokenOperationK?
  {
  }

  /** Once revoked locally, a token is rejected by the pipeline and by validateToken,
      whatever the store says. */
  lemma RevokedTokenRejected(s: ServiceState, decode: string -> DecodedJwt, poolSize: nat, t: string,
                             username: string, now: int, io: StoreIo, io2: StoreIo)
    requires t in s.blacklist
    ensures IsInvalidTokenError(UsernameFromToken(s, decode, poolSize, Some(t), now, io).0)
    ensures !ValidateToken(s, decode, poolSize, t, username, now, io, io2).0
  {
  }

  /** A well-formed token that is invalidated ends up in the local blacklist and out
      of the token cache, its store write is queued, and from then on both checks
      reject it. */
  lemma InvalidateThenRejected(s: ServiceState, decode: string -> DecodedJwt, poolSize: nat, t: string,
                               username: string, now: int, io: StoreIo, io2: StoreIo)
    requires decode(Trim(t)).wellFormed
    ensures var (r, s1) := Invalidate(s, decode, Some(t));
      r.Ok? && t in s1.blacklist && t !in s1.tokenCache && s1.pending == s.pending + [t]
      && IsInvalidTokenError(UsernameFromToken(s1, decode, poolSize, Some(t), now, io).0)
      && !ValidateToken(s1, decode, poolSize, t, username, now, io, io2).0
  {
    var (r, s1) := Invalidate(s, decode, Some(t));
    RevokedTokenRejected(s1, decode, poolSize, t, username, now, io, io2);
  }

  /** Every operation keeps every revoked token revoked. */
  lemma {:induction false} BlacklistNeverShrinks(s: ServiceState, decode: string -> DecodedJwt, poolSize: nat,
                                                 token: Option<string>, t: string, username: string, now: int,
                                                 io: StoreIo, io2: StoreIo)
    ensures s.blacklist <= UsernameFromToken(s, decode, poolSize, token, now, io).1.blacklist
    ensures s.blacklist <= ValidateToken(s, decode, poolSize, t, username, now, io, io2).1.blacklist
    ensures s.blacklist <= Invalidate(s, decode, token).1.blacklist
    ensures s.blacklist <= Sync(s, now, io.keysUp).blacklist
  {
    if token.Some? {
      LookupEffects(s, token.value, now, io);
    }
    LookupEffects(s, t, now, io);
    var s1 := BlacklistLookup(s, t, now, io).1;
    LookupEffects(s1, t, now, io2);
  }

  /** validateToken: revoked → false; cached and expired → false and the entry is
      dropped; cached and live → the cached subject must be the user's name; otherwise
      the full check must succeed with that name, any failure giving false. */
  lemma ValidateTokenCases(s: ServiceState, decode: string -> DecodedJwt, poolSize: nat, t: string,
                           username: string, now: int, io: StoreIo, io2: StoreIo)
    ensures var (black, s1) := BlacklistLookup(s, t, now, io);
      var (valid, s2) := ValidateToken(s, decode, poolSize, t, username, now, io, io2);
      (black ==> !valid)
      && (!black && t in s1.tokenCache && Expired(s1.tokenCache[t], now) ==> !valid && t !in s2.tokenCache)
      && (!black && t in s1.tokenCache && !Expired(s1.tokenCache[t], now) ==>
            valid == (s1.tokenCache[t].subject == Some(username)))
      && (!black && t !in s1.tokenCache ==>
            valid == (UsernameFromToken(s1, decode, poolSize, Some(t), now, io2).0 == Ok(username)))
  {
  }

  // ---------------------------------------------------------------------------
  // cleanupCaches and the verifier pool

  /** The cleanup only ever removes entries, keeps the survivors' values, does
      nothing at or below the cap, and above it leaves no expired entry behind. */
  lemma CleanupOnlyRemoves(before: map<string, DecodedJwt>, after: map<string, DecodedJwt>, now: int)
    requires CleanupOutcome(before, after, now)
    ensures after.Keys <= before.Keys
    ensures forall k :: k in after ==> after[k] == before[k]
    ensures |before| <= MaxCacheSize ==> after == before
    ensures |before| > MaxCacheSize ==> forall k :: k in after ==> !Expired(after[k], now)
  {
  }

  /** `String.hashCode` one character at a time: appending `c` multiplies the
      hash by 31, adds the character's code and wraps to 32 bits; a single
      character hashes to its own code. */
  lemma JavaHashStep(s: string, c: char)
    ensures JavaHash(s + [c]) == ToInt32(31 * JavaHash(s) + c as int)
    ensures -0x8000_0000 <= JavaHash(s + [c]) < 0x8000_0000
    ensures JavaHash([c]) == c as int
  {
    assert (s + [c])[..|s|] == s;
    assert [c][..0] == [];
  }
}
