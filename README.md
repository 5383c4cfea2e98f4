# foroescolar: token authentication, authorisation and school services in Dafny

This project models the core of the *foroescolar* school backend, a Spring
application. It covers two parts.

**Token layer.** This part covers:
- taking the bearer token out of the `Authorization` header;
- the token service's checks: structure, revocation list, expiry, a cache of
  verified tokens and a pool of signature verifiers;
- revoking a token, and syncing the revocation list with a key-value store;
- the filter chain around these: base filter, JWT filter with its bounded
  access-order cache, blacklist filter and request logging;
- how each failure becomes an HTTP error body (`FilterErrorHandler`,
  `ErrorResponseBuilder`, `ErrorResponse` and `GlobalExceptionHandler`);
- the URL security table (`SecurityConfiguration`) and the per-record access
  decisions (`SecurityService`).

**Domain services.** These are the services that keep the stored data
consistent:
- daily attendance (`AsistenciaServiceImpl`), with the `Fecha` and `Grado`
  entities it updates;
- grades (`GradoServiceImp`);
- legal guardians and their links to students (`TutorLegalServiceImpl`);
- students (`EstudianteServiceImpl`, with the field mapping of
  `EstudianteMapperBase`);
- tasks (`TareaServiceImpl`);
- administrators (`UserServiceImpl`) and teachers (`ProfesorServiceImpl`).

## How a service is modelled

Each service works the same way:
- Its repositories form one state value.
- A pure function gives the outcome and the next state of each operation. The
  outcome is a `Result`, so every exception the Java code throws is a value
  here.
- A class with the repositories as fields implements the operation as a
  method. The method's contract ties its result and new state to that
  function.
- Lemmas state what the operation promises: which guard answers first, what
  is stored, what is left alone, which invariant is kept, and how operations
  combine.

An operation marked `@Transactional` that fails leaves every repository as it
was. Entities whose fields the Java code sets one by one (`Grado`,
`Estudiante`, `Tarea`) are classes with those fields.

## Outside inputs

Clocks, the key-value store's availability, JWT decoding, BCrypt and the
reflective bean copy of `UpdatedEntities.update` are parameters of the
model:
- The current time is an `int` (milliseconds) or a `LocalDate` value.
- A `StoreIo` value says whether each store call answers.
- JWT decoding is a function parameter `decode`.
- A hashed password is `Hashed(raw)`.
- The result of the reflective copy is the parameter `copied`.

## Files

| file | models |
|---|---|
| `wrappers.dfy` | `Option` and `Result` |
| `java_text.dfy` | `String.trim`, `startsWith`, `contains`, `replace`, `join`, and integer-to-text with its injectivity |
| `exceptions.dfy` | the exception hierarchy, error codes and their HTTP statuses |
| `token_extractor.dfy` | `TokenExtractor` |
| `token_service.dfy`, `token_service_props.dfy` | `TokenServiceImpl`, as specification functions, a class and the properties of the token checks |
| `token_executor.dfy` | the single-thread executor of `TokenServiceImpl` as written |
| `ant_path.dfy` | the Ant-style path patterns the filters and the security table use |
| `lru_cache.dfy` | the access-order `LinkedHashMap` of `JwtAuthenticationFilter` |
| `base_filter.dfy`, `jwt_filter.dfy`, `blacklist_filter.dfy`, `request_logging.dfy` | the servlet filters |
| `error_response.dfy`, `response_builder.dfy`, `filter_error_handler.dfy`, `global_handler.dfy` | the error bodies |
| `security_configuration.dfy`, `security_service.dfy` | URL rules and per-record access decisions |
| `fecha.dfy`, `grado.dfy`, `entities.dfy` | the entities the services share |
| `asistencia_service.dfy`, `grado_service.dfy`, `tutor_legal_service.dfy`, `estudiante_mapper.dfy`, `estudiante_service.dfy`, `tarea_service.dfy`, `user_service.dfy`, `profesor_service.dfy` | the domain services |

Two behaviours of the token layer are worth stating directly:
- **A token that cannot be decoded ends as a 500 `INTERNAL_ERROR`.** The
  request is not let through unauthenticated. `JwtAuthenticationFilter` wraps
  the failure in `JwtAuthenticationException`, and the base filter passes it to
  `FilterErrorHandler` (`BaseSecurityFilter.JwtFailureIsUnexpected`,
  `FilterErrorHandler.JwtAuthenticationIsInternal`).
- **`getUsernameFromToken` checks revocation before expiry**
  (`TokenServiceProperties.RevocationReportedBeforeExpiry`).

## Model

| member | source | states |
|---|---|---|
| TokenExtractor.ExtractFromHeader | src/main/java/com/foroescolar/utils/token/TokenExtractor.java:9-20 | A token is returned exactly when the header starts with `"Bearer "` and something other than blanks follows it; the token is then non-empty and has no leading or trailing blanks. |
| TokenExtractor.ExtractIsTrimmedRemainder | src/main/java/com/foroescolar/utils/token/TokenExtractor.java:9-20 | The token is the trimmed rest of the header after the seven-character prefix, and no token when that rest is blank. |
| TokenExtractor.ExtractRoundTrip | src/main/java/com/foroescolar/utils/token/TokenExtractor.java:9-20 | Round trip: the header `"Bearer " + t` built for a non-empty trimmed token `t` yields `t` again. |
| TokenExtractor.ExtractRejectsLowerCaseScheme | src/main/java/com/foroescolar/utils/token/TokenExtractor.java:12 | The scheme comparison is case sensitive: a `"bearer "` header gives no token. |
| TokenService.ToInt32 | src/main/java/com/foroescolar/services/impl/TokenServiceImpl.java:288 | The 32-bit wrap-around that `String.hashCode` works in: the result is in the `int` range and congruent to the input modulo 2^32. |
| TokenService.JavaRem | src/main/java/com/foroescolar/services/impl/TokenServiceImpl.java:288 | Java's `%`: the remainder is smaller in magnitude than the divisor and takes the sign of the dividend. |
| TokenService.VerifierIndex | src/main/java/com/foroescolar/services/impl/TokenServiceImpl.java:288 | `Math.abs(hashCode % poolSize)` always picks a verifier inside the pool. |
| TokenService.TokenServiceImpl.constructor | src/main/java/com/foroescolar/services/impl/TokenServiceImpl.java:85-89 | A new service holds no cached token, no revoked token, last sync time 0, no queued write, over the given store. |
| TokenService.TokenServiceImpl.Initialize | src/main/java/com/foroescolar/services/impl/TokenServiceImpl.java:92-96 | `initialize` performs the first sync: the revocation list becomes the union with the store's entries, timestamped only when the store answered. |
| TokenService.TokenServiceImpl.SyncBlacklistFromRedis | src/main/java/com/foroescolar/services/impl/TokenServiceImpl.java:413-427 | The list becomes its union with the store's `blacklist:*` keys stripped of the prefix; on a store failure nothing changes. |
| TokenService.TokenServiceImpl.IsTokenInBlacklist | src/main/java/com/foroescolar/services/impl/TokenServiceImpl.java:381-411 | The answer and new state are those of the lookup specification: local set, then a sync if more than the interval has passed, then the direct key query, a hit being remembered locally. |
| TokenService.TokenServiceImpl.VerifyTokenCached | src/main/java/com/foroescolar/services/impl/TokenServiceImpl.java:277-290 | A cached decoding is returned without a verifier; otherwise the verifier at `VerifierIndex` decides, and an empty pool is a division by zero. |
| TokenService.TokenServiceImpl.GetUsernameFromToken | src/main/java/com/foroescolar/services/impl/TokenServiceImpl.java:212-255 | The result and new state are those of `UsernameFromToken`, whose properties are the `TokenServiceProperties` lemmas. |
| TokenService.TokenServiceImpl.ValidateTokenFor | src/main/java/com/foroescolar/services/impl/TokenServiceImpl.java:301-335 | The result and new state are those of `ValidateToken` (properties in `TokenServiceProperties.ValidateTokenCases`). |
| TokenService.TokenServiceImpl.InvalidateToken | src/main/java/com/foroescolar/services/impl/TokenServiceImpl.java:338-363 | A token that cannot be decoded is refused with `TokenOperationException`; otherwise it enters the local list, leaves the cache and its store write is queued on the executor. |
| TokenService.TokenServiceImpl.RunPendingWrite | src/main/java/com/foroescolar/services/impl/TokenServiceImpl.java:365-378 | The intended executor step: the oldest queued revocation is written to the store under `blacklist:` (dropped with only a log line if the store fails) and leaves the queue. |
| TokenService.TokenServiceImpl.GetAllBlacklistedTokens | src/main/java/com/foroescolar/services/impl/TokenServiceImpl.java:430-436 | It syncs first and returns exactly the local list after the sync. |
| TokenService.TokenServiceImpl.CleanupCaches | src/main/java/com/foroescolar/services/impl/TokenServiceImpl.java:161-184 | Nothing happens at or below the cap; above it expired entries go and, if still above, some of the remaining keys are removed; survivors keep their values (see `CleanupOnlyRemoves`). |
| TokenServiceProperties.BlankTokenRejectedFirst | src/main/java/com/foroescolar/services/impl/TokenServiceImpl.java:215-275 | A null or blank token fails with the `TOKEN_INVALID` error before the decoder, cache, verifier pool, clock or store play any part, and changes nothing. |
| TokenServiceProperties.MalformedNeverReachesStore | src/main/java/com/foroescolar/services/impl/TokenServiceImpl.java:219-264 | A token `JWT.decode` rejects never reaches the revocation lookup or the store: the result is the catch-all `TOKEN_INVALID` whatever the store holds or answers, not `TOKEN_MALFORMED`. |
| TokenServiceProperties.RevocationReportedBeforeExpiry | src/main/java/com/foroescolar/services/impl/TokenServiceImpl.java:222-225 | A revoked token is rejected with `TOKEN_INVALID` even if it has also expired. |
| TokenServiceProperties.ExpiryCheckedBeforeCache | src/main/java/com/foroescolar/services/impl/TokenServiceImpl.java:228-232 | An expired token that is not revoked is rejected as expired even if it is in the cache. |
| TokenServiceProperties.VerifierRejectionSurfacesAsExpired | src/main/java/com/foroescolar/services/impl/TokenServiceImpl.java:244-248 | A signature the verifier rejects comes back as `TokenExpiredException`, whatever the real cause. |
| TokenServiceProperties.UsernameAcceptedExactly | src/main/java/com/foroescolar/services/impl/TokenServiceImpl.java:212-255 | Both directions: a username is returned exactly when the token decodes, is not revoked, has not expired, is accepted by the cache or a verifier, and has a subject; the subject is then returned and cached under the untrimmed token. |
| TokenServiceProperties.UsernamePreservesCacheSound | src/main/java/com/foroescolar/services/impl/TokenServiceImpl.java:235-238 | Invariant: the cache only ever holds verified decodings of the token's trimmed form. |
| TokenServiceProperties.CacheHitSkipsVerifier | src/main/java/com/foroescolar/services/impl/TokenServiceImpl.java:238-283 | After a success on a token with nothing to trim, a later live, unrevoked check of it is answered from the cache with the same subject, even with an empty verifier pool. |
| TokenServiceProperties.LocalHitNoStoreAccess | src/main/java/com/foroescolar/services/impl/TokenServiceImpl.java:381-385 | A local hit answers true with no store access: the same answer and state for every store content and answer. |
| TokenServiceProperties.LookupEffects | src/main/java/com/foroescolar/services/impl/TokenServiceImpl.java:381-411 | The lookup changes only the revocation list and the sync time. The list only grows. The time moves only when a sync was due and the store answered. The answer is whether the token is in the list afterwards. |
| TokenServiceProperties.StoreFailureFailsOpen | src/main/java/com/foroescolar/services/impl/TokenServiceImpl.java:400-410 | When the direct store query fails, the answer is the local list after any due sync (fails open). |
| TokenServiceProperties.LookupWithStoreUp | src/main/java/com/foroescolar/services/impl/TokenServiceImpl.java:381-411 | With the store up, revoked means: in the local list, or in the store listing when a sync is due, or under its own `blacklist:` key. |
| TokenServiceProperties.SyncIsUnion | src/main/java/com/foroescolar/services/impl/TokenServiceImpl.java:413-427 | A sync is a union that never removes a token and advances the sync time only on success; a failed sync changes nothing. |
| TokenServiceProperties.PersistedRevocationSyncs | src/main/java/com/foroescolar/services/impl/TokenServiceImpl.java:365-427 | Round trip through the store: a revocation written under the prefix is picked up by a later sync, for any token without the prefix inside it. |
| TokenServiceProperties.InvalidateMalformedChangesNothing | src/main/java/com/foroescolar/services/impl/TokenServiceImpl.java:342-359 | A token that cannot be decoded is refused with `TokenOperationException` and nothing changes. |
| TokenServiceProperties.RevokedTokenRejected | src/main/java/com/foroescolar/services/impl/TokenServiceImpl.java:222-225 | A token in the local list is rejected by `getUsernameFromToken` and by `validateToken` whatever the store says. |
| TokenServiceProperties.InvalidateThenRejected | src/main/java/com/foroescolar/services/impl/TokenServiceImpl.java:338-363 | After invalidation a decodable token is in the list, out of the cache, its write queued, and both checks reject it from then on. |
| TokenServiceProperties.BlacklistNeverShrinks | src/main/java/com/foroescolar/services/impl/TokenServiceImpl.java:212-436 | Invariant: no operation ever removes a revoked token from the local list. |
| TokenServiceProperties.ValidateTokenCases | src/main/java/com/foroescolar/services/impl/TokenServiceImpl.java:301-335 | The four cases of `validateToken`: revoked gives false; cached and expired gives false and the entry drops; cached and live compares the cached subject with the user's name; otherwise the full check must return that name. |
| TokenServiceProperties.CleanupOnlyRemoves | src/main/java/com/foroescolar/services/impl/TokenServiceImpl.java:161-184 | The cleanup only removes entries, keeps survivors' values, does nothing at or below the cap, and above it leaves no expired entry. |
| TokenServiceProperties.JavaHashStep | src/main/java/com/foroescolar/services/impl/TokenServiceImpl.java:288 | `String.hashCode` one character at a time: appending a character multiplies the hash by 31, adds the character's code and wraps to 32 bits. A single character hashes to its own code. |
| TokenExecutor.QueueAfterInvalidations | src/main/java/com/foroescolar/services/impl/TokenServiceImpl.java:92-96 | After `initialize` and a run of `invalidateToken` calls, the queue holds the cleanup loop first and then one store write per token, in order. |
| TokenExecutor.NothingRunsBehindCleanup | src/main/java/com/foroescolar/services/impl/TokenServiceImpl.java:145-159 | As written: once the never-ending cleanup loop holds the only worker, no step changes the store or the queue, however long the executor runs. |
| TokenExecutor.RevocationNeverPersisted | src/main/java/com/foroescolar/services/impl/TokenServiceImpl.java:145-159 | As written: a revocation made after initialisation never reaches the store. |
| TokenExecutor.DrainPersistsEveryRevocation | src/main/java/com/foroescolar/services/impl/TokenServiceImpl.java:353-378 | Corrected: with writes run by a free worker and the store answering, every queued revocation reaches the store, the stored entries stay, and the queue empties. |
| AntPath.SegmentsAreSegments | src/main/java/com/foroescolar/config/security/filters/BaseSecurityFilter.java:18-35 | The path tokenizer splits a request path into non-empty segments without separators which, written one after the other, are the path with its separators removed. |
| AntPath.AnyMatchesAll | src/main/java/com/foroescolar/config/security/filters/BaseSecurityFilter.java:31-35 | A trailing `/**` matches every remainder of the path, including an empty one. |
| AntPath.LitStep | src/main/java/com/foroescolar/config/security/filters/BaseSecurityFilter.java:31-35 | A literal pattern segment matches exactly the same path segment and then the rest. |
| AntPath.VarStep | src/main/java/com/foroescolar/config/security/filters/BaseSecurityFilter.java:31-35 | A `{var}` or `*` pattern segment matches any one path segment and then the rest. |
| BaseSecurityFilter.AnyMatch | src/main/java/com/foroescolar/config/security/filters/BaseSecurityFilter.java:31-35 | Both directions: a request is skipped exactly when some public pattern of the filter matches its URI. |
| BaseSecurityFilter.NoPatternsFilterAll | src/main/java/com/foroescolar/config/security/filters/BaseSecurityFilter.java:21-35 | A filter without public patterns skips no request. |
| BaseSecurityFilter.DoFilter | src/main/java/com/foroescolar/config/security/filters/BaseSecurityFilter.java:38-52 | The funnel: a stage that continues the chain or writes its own response ends that way; a stage that throws ends with the error handler's response for that exception, with the funnel's "Argumento inválido: ", "Error de servlet: " or "Error inesperado: " text as additional information. |
| BaseSecurityFilter.FunnelInfoRecorded | src/main/java/com/foroescolar/config/security/filters/BaseSecurityFilter.java:45-51 | The funnel always passes a text, so the error body always holds it under `additional_info`. |
| BaseSecurityFilter.JwtFailureIsUnexpected | src/main/java/com/foroescolar/config/security/filters/BaseSecurityFilter.java:49-50 | A `JwtAuthenticationException` from a stage ends as a 500 with "Error inesperado: " and its message. |
| AccessOrderCache.Find | src/main/java/com/foroescolar/config/security/filters/JwtAuthenticationFilter.java:33-38 | The position found holds the key, and no position is found exactly when the key is absent. |
| AccessOrderCache.LinkedCache.constructor | src/main/java/com/foroescolar/config/security/filters/JwtAuthenticationFilter.java:33 | A new cache is empty. |
| AccessOrderCache.LinkedCache.Get | src/main/java/com/foroescolar/config/security/filters/JwtAuthenticationFilter.java:33-86 | `get` on the access-order map: the value of the key, and a hit becomes the most recently accessed entry. |
| AccessOrderCache.LinkedCache.Put | src/main/java/com/foroescolar/config/security/filters/JwtAuthenticationFilter.java:33-99 | `put`: the entry becomes the most recent, and when the size passes 1000 the eldest entry is removed. |
| AccessOrderCache.RemoveKeepsDistinct | src/main/java/com/foroescolar/config/security/filters/JwtAuthenticationFilter.java:33-38 | Removing a position keeps keys distinct and removes exactly that key. |
| AccessOrderCache.AppendAbsentKeepsDistinct | src/main/java/com/foroescolar/config/security/filters/JwtAuthenticationFilter.java:33-38 | Appending an absent key keeps keys distinct and adds exactly that key. |
| AccessOrderCache.LruPutBounded | src/main/java/com/foroescolar/config/security/filters/JwtAuthenticationFilter.java:33-38 | Invariant: `put` keeps keys distinct and the size at most 1000, and the new entry is the most recent. |
| AccessOrderCache.LruEvictsEldest | src/main/java/com/foroescolar/config/security/filters/JwtAuthenticationFilter.java:35-37 | Inserting a new key into a full cache removes exactly the least recently accessed entry. |
| AccessOrderCache.LruGetHit | src/main/java/com/foroescolar/config/security/filters/JwtAuthenticationFilter.java:33 | A hit is found exactly when the key is present. It returns that key's value and moves its entry to the most recent end. The entries themselves are only reordered. |
| AccessOrderCache.PutThenGet | src/main/java/com/foroescolar/config/security/filters/JwtAuthenticationFilter.java:33-38 | Round trip: what was just put is returned by the next `get`. |
| JwtAuthenticationFilter.JwtFilter.constructor | src/main/java/com/foroescolar/config/security/filters/JwtAuthenticationFilter.java:42-49 | A new filter has an empty token cache and an empty invalid-token map, and leaves the token service as it was. |
| JwtAuthenticationFilter.JwtFilter.DoFilterInternal | src/main/java/com/foroescolar/config/security/filters/JwtAuthenticationFilter.java:52-125 | The outcome and new state are those of the stage specification `FilterStage`, whose properties are the lemmas below. |
| JwtAuthenticationFilter.JwtFilter.Filter | src/main/java/com/foroescolar/config/security/filters/JwtAuthenticationFilter.java:46-81 | Public paths skip the filter with no change; otherwise the stage runs and whatever it throws is answered by the base funnel. |
| JwtAuthenticationFilter.JwtFilter.CleanInvalidTokenCache | src/main/java/com/foroescolar/config/security/filters/JwtAuthenticationFilter.java:127-133 | The invalid-token map becomes exactly its entries at most 30 minutes old. |
| JwtAuthenticationFilter.PassThroughCases | src/main/java/com/foroescolar/config/security/filters/JwtAuthenticationFilter.java:53-69 | An authenticated request, a request without a token and a token already known to be invalid continue the chain, with no state change and no call to the token service. |
| JwtAuthenticationFilter.CacheHitSkipsService | src/main/java/com/foroescolar/config/security/filters/JwtAuthenticationFilter.java:85-91 | A cached token authenticates its cached user without the token service: no revocation or expiry check happens on a hit. |
| JwtAuthenticationFilter.ExpiredTokenAnswered | src/main/java/com/foroescolar/config/security/filters/JwtAuthenticationFilter.java:76-107 | An expired token is recorded as invalid with the current time, the context is cleared, and the expired-session response is written instead of continuing. |
| JwtAuthenticationFilter.OtherFailureRethrown | src/main/java/com/foroescolar/config/security/filters/JwtAuthenticationFilter.java:108-112 | Any other failure of the token service is recorded and rethrown as `JwtAuthenticationException` carrying "Error al procesar el token de autenticación: " and the original message. |
| JwtAuthenticationFilter.AcceptedTokenCached | src/main/java/com/foroescolar/config/security/filters/JwtAuthenticationFilter.java:94-103 | A token the service accepts authenticates the loaded user and is cached, so the next request with it authenticates the same user without the token service. |
| JwtAuthenticationFilter.CacheStaysBounded | src/main/java/com/foroescolar/config/security/filters/JwtAuthenticationFilter.java:33-38 | Invariant: the filter's token cache never holds more than 1000 entries, and its keys stay distinct. |
| JwtAuthenticationFilter.SweepExact | src/main/java/com/foroescolar/config/security/filters/JwtAuthenticationFilter.java:127-133 | The sweep keeps exactly the entries at most 30 minutes old, with their times, and is idempotent. |
| JwtAuthenticationFilter.FilterTokensAreTrimmed | src/main/java/com/foroescolar/config/security/filters/JwtAuthenticationFilter.java:60-94 | The token the filter passes to the service has nothing to trim, so the service's cache (written under the raw token, read under the trimmed one) finds it. |
| BlacklistTokenFilter.BlacklistFilter.constructor | src/main/java/com/foroescolar/config/security/filters/BlacklistTokenFilter.java:30-37 | The constructor syncs once: the snapshot is the service's list after the service synced with the store. |
| BlacklistTokenFilter.BlacklistFilter.SyncBlacklist | src/main/java/com/foroescolar/config/security/filters/BlacklistTokenFilter.java:70-83 | The snapshot is replaced by the service's list after its sync, timestamped now. |
| BlacklistTokenFilter.BlacklistFilter.AddToBlacklist | src/main/java/com/foroescolar/config/security/filters/BlacklistTokenFilter.java:85-87 | The token joins the snapshot; the sync time is unchanged. |
| BlacklistTokenFilter.BlacklistFilter.DoFilterInternal | src/main/java/com/foroescolar/config/security/filters/BlacklistTokenFilter.java:40-68 | The outcome and new state are those of the stage specification `BlacklistStage`. |
| BlacklistTokenFilter.BlacklistFilter.Filter | src/main/java/com/foroescolar/config/security/filters/BlacklistTokenFilter.java:33-68 | Public paths skip the filter with no change; otherwise the chain continues exactly when the stage lets it. |
| BlacklistTokenFilter.ResyncWhenStale | src/main/java/com/foroescolar/config/security/filters/BlacklistTokenFilter.java:41-44 | A snapshot more than five minutes old is replaced before the token is looked at; a younger one is kept. |
| BlacklistTokenFilter.SnapshotTokenRejected | src/main/java/com/foroescolar/config/security/filters/BlacklistTokenFilter.java:51-53 | A token in the snapshot is rejected as invalidated and nothing changes. |
| BlacklistTokenFilter.DirectLookupOnlyWhenOld | src/main/java/com/foroescolar/config/security/filters/BlacklistTokenFilter.java:55-60 | With a snapshot at most a minute old the service is not asked and nothing changes, and exactly the snapshot's tokens are rejected. |
| BlacklistTokenFilter.DirectHitCached | src/main/java/com/foroescolar/config/security/filters/BlacklistTokenFilter.java:55-59 | A token the service reports as revoked joins the snapshot and the request is rejected. |
| BlacklistTokenFilter.SyncReplaces | src/main/java/com/foroescolar/config/security/filters/BlacklistTokenFilter.java:75-78 | A sync replaces the snapshot: a token added locally that the service does not know is dropped. |
| BlacklistTokenFilter.NoTokenContinues | src/main/java/com/foroescolar/config/security/filters/BlacklistTokenFilter.java:46-67 | A request without a token always continues the chain. |
| BlacklistTokenFilter.RevokedIsUnauthorized | src/main/java/com/foroescolar/config/security/filters/BlacklistTokenFilter.java:52 | A revoked token ends as a 401 with code `TOKEN_INVALIDATED`. |
| RequestLoggingFilter.AbbreviateUserAgent | src/main/java/com/foroescolar/config/security/filters/RequestLoggingFilter.java:90-95 | A null agent stays null. An agent of at most 30 characters is kept unchanged. A longer one becomes exactly 30 characters: its own first 27 followed by "...". |
| RequestLoggingFilter.FirstUsable | src/main/java/com/foroescolar/config/security/filters/RequestLoggingFilter.java:97-115 | The address is the first header among the five whose value is present, non-empty and not "unknown" in any letter case, and otherwise the remote address. |
| RequestLoggingFilter.FirstUsableStep | src/main/java/com/foroescolar/config/security/filters/RequestLoggingFilter.java:98-113 | One step of the header chain: the first header decides if usable, otherwise the rest. |
| RequestLoggingFilter.GetClientIp | src/main/java/com/foroescolar/config/security/filters/RequestLoggingFilter.java:97-115 | The chain of reassignments of `ip` computes `FirstUsable` over the five headers in the source order. |
| RequestLoggingFilter.ContainsAt | src/main/java/com/foroescolar/config/security/filters/RequestLoggingFilter.java:86-87 | `contains` holds exactly when the text occurs at some position. |
| RequestLoggingFilter.LowValueIff | src/main/java/com/foroescolar/config/security/filters/RequestLoggingFilter.java:84-88 | Both directions: low-value means starting with "/api/health" or holding "/status" or "/metrics" somewhere. |
| RequestLoggingFilter.AnyStaticSuffix | src/main/java/com/foroescolar/config/security/filters/RequestLoggingFilter.java:21-35 | Both directions: a path matches the static-resource pattern exactly when it is one or more non-terminator characters, a dot and one of the listed extensions. |
| RequestLoggingFilter.StaticHasStem | src/main/java/com/foroescolar/config/security/filters/RequestLoggingFilter.java:21 | A static resource has a character before its dot, so a bare ".css" is logged. |
| RequestLoggingFilter.DocsNotLogged | src/main/java/com/foroescolar/config/security/filters/RequestLoggingFilter.java:28 | Every path under `/v3/api-docs` is skipped by the logging filter. |
| RequestLoggingFilter.CompletionLevel | src/main/java/com/foroescolar/config/security/filters/RequestLoggingFilter.java:70-75 | The completion line is a warning exactly when the status is at least 400 or the request took more than a second; it is never info. |
| RequestLoggingFilter.LoggingStage | src/main/java/com/foroescolar/config/security/filters/RequestLoggingFilter.java:43-82 | The chain runs exactly once. A request outside the sample gets no log line. A sampled GET to a low-value endpoint gets the debug line with the abbreviated agent; any other sampled request gets the info line with the client address. Either way the completion level follows `CompletionLevel`. |
| ErrorResponses.ResponseBuilder.constructor | src/main/java/com/foroescolar/exceptions/dtoserror/ErrorResponse.java:33-47 | A new builder has nothing set and its timestamp taken at creation. |
| ErrorResponses.ResponseBuilder.SetStatus | src/main/java/com/foroescolar/exceptions/dtoserror/ErrorResponse.java:49-52 | Sets the status and nothing else. |
| ErrorResponses.ResponseBuilder.SetCode | src/main/java/com/foroescolar/exceptions/dtoserror/ErrorResponse.java:54-57 | Sets the code and nothing else. |
| ErrorResponses.ResponseBuilder.SetMessage | src/main/java/com/foroescolar/exceptions/dtoserror/ErrorResponse.java:59-62 | Sets the message and nothing else. |
| ErrorResponses.ResponseBuilder.SetTimestamp | src/main/java/com/foroescolar/exceptions/dtoserror/ErrorResponse.java:64-67 | Sets the timestamp and nothing else. |
| ErrorResponses.ResponseBuilder.AddDetails | src/main/java/com/foroescolar/exceptions/dtoserror/ErrorResponse.java:69-74 | A null map is ignored; otherwise its entries are merged over the details (see `DetailsMerge`). |
| ErrorResponses.ResponseBuilder.SetPath | src/main/java/com/foroescolar/exceptions/dtoserror/ErrorResponse.java:76-79 | Puts the "path" entry into the details (see `PathSetsOnlyPath`). |
| ErrorResponses.ResponseBuilder.Build | src/main/java/com/foroescolar/exceptions/dtoserror/ErrorResponse.java:81-96 | `build` validates as `BuildResponse` does, whose properties `BuildSucceedsIff` states; the builder is not changed. |
| ErrorResponses.BuildSucceedsIff | src/main/java/com/foroescolar/exceptions/dtoserror/ErrorResponse.java:81-96 | Both directions: `build` succeeds exactly when a status is set and the code and message are neither null nor blank. The response then carries the builder's fields; any failure is an `IllegalStateException`. |
| ErrorResponses.MissingStatusFailsFirst | src/main/java/com/foroescolar/exceptions/dtoserror/ErrorResponse.java:86-89 | A null status fails with "El estado HTTP es obligatorio", whatever else is missing. |
| ErrorResponses.BlankCodeRejected | src/main/java/com/foroescolar/exceptions/dtoserror/ErrorResponse.java:90-92 | A code that `trim()` empties counts as missing. |
| ErrorResponses.DetailsMerge | src/main/java/com/foroescolar/exceptions/dtoserror/ErrorResponse.java:69-74 | `details(null)` changes nothing. Otherwise the given entries win over earlier ones and every other key keeps its value; no other field changes. |
| ErrorResponses.PathSetsOnlyPath | src/main/java/com/foroescolar/exceptions/dtoserror/ErrorResponse.java:76-79 | `path(p)` sets exactly the "path" entry and keeps every other one. |
| ErrorResponses.SettersLastWriteWins | src/main/java/com/foroescolar/exceptions/dtoserror/ErrorResponse.java:49-67 | For each field setter, the last call wins. |
| ErrorResponses.TimestampDefaultsAtCreation | src/main/java/com/foroescolar/exceptions/dtoserror/ErrorResponse.java:25-35 | A builder whose timestamp setter is never called keeps the timestamp taken at its creation through every other setter. |
| ErrorResponseBuilder.BuildAuthenticationErrorResponse | src/main/java/com/foroescolar/exceptions/dtoserror/ErrorResponseBuilder.java:31-53 | A 401 with code `AUTHENTICATION_ERROR`; exactly the details "path", "error_type" and "timestamp", holding the request URI and the exception's simple class name. |
| ErrorResponseBuilder.BuildSecurityError | src/main/java/com/foroescolar/exceptions/dtoserror/ErrorResponseBuilder.java:65-72 | The exception's own status (401 for every security exception), code and message, no details; it fails exactly when the message is blank. |
| ErrorResponseBuilder.BuildTokenError | src/main/java/com/foroescolar/exceptions/dtoserror/ErrorResponseBuilder.java:56-63 | The token exception's own status, code and message; it fails exactly when the message is blank. |
| ErrorResponseBuilder.BuildUnexpectedError | src/main/java/com/foroescolar/exceptions/dtoserror/ErrorResponseBuilder.java:74-82 | The second `message` call replaces the generic text. The result is a 500 with code `INT-001` and the exception's own message, and it fails with "El mensaje es obligatorio" exactly when that message is null or blank. |
| ErrorResponseBuilder.BuildAuthorizationError | src/main/java/com/foroescolar/exceptions/dtoserror/ErrorResponseBuilder.java:84-92 | A 403 with code `AUTH-002`, the given message, and the path as the only detail; it fails exactly when the message is blank. |
| ErrorResponseBuilder.BuildSecurityErrorFor | src/main/java/com/foroescolar/exceptions/dtoserror/ErrorResponseBuilder.java:94-103 | Always 401, whatever the exception's status. The details are the exception's over the request path: "path" is the exception's own if it has one, otherwise the request URI. |
| ErrorResponseBuilder.CodesNeverBlank | src/main/java/com/foroescolar/exceptions/dtoserror/ErrorResponseBuilder.java:65-103 | No `ErrorCode` text is blank, so only the message can make a security response fail. |
| FilterErrorHandler.ErrorDetails | src/main/java/com/foroescolar/exceptions/security/filters/FilterErrorHandler.java:161-173 | The details hold the exception's class name and message, and "additional_info" exactly when that text is neither null nor empty. |
| FilterErrorHandler.HandleException | src/main/java/com/foroescolar/exceptions/security/filters/FilterErrorHandler.java:52-107 | The written status equals the body's. Status, code and message follow the first matching class test. The details are `ErrorDetails`, and the builder never fails here. |
| FilterErrorHandler.HandleTokenExpired | src/main/java/com/foroescolar/exceptions/security/filters/FilterErrorHandler.java:141-159 | The HTTP status is 401 while the body, an authorization error, says 403 with code `AUTH-002` and the session-expired message; the path is the only detail. |
| FilterErrorHandler.ExpectedIffUnauthorized | src/main/java/com/foroescolar/exceptions/security/filters/FilterErrorHandler.java:109-113 | Both directions: the errors logged at debug level are exactly those answered with 401. |
| FilterErrorHandler.SecurityClassesMapped | src/main/java/com/foroescolar/exceptions/security/filters/FilterErrorHandler.java:52-107 | Expired, invalidated and filter-authentication exceptions get 401 with their own code and message, and filter-authorization gets 403. |
| FilterErrorHandler.OthersAreInternal | src/main/java/com/foroescolar/exceptions/security/filters/FilterErrorHandler.java:52-107 | Every other exception, the remaining token exceptions included, is a 500 `INTERNAL_ERROR`. |
| FilterErrorHandler.JwtAuthenticationIsInternal | src/main/java/com/foroescolar/exceptions/security/filters/FilterErrorHandler.java:52-113 | A `JwtAuthenticationException` is a 500 and is not logged as an expected client error. |
| GlobalExceptionHandler.FirstMessageWins | src/main/java/com/foroescolar/exceptions/GlobalExceptionHandler.java:78-92 | `toMap` with the keep-first merge: one entry per field named, holding the message of the first error about that field ("Error de validación" for a null message). |
| GlobalExceptionHandler.FirstMatching | src/main/java/com/foroescolar/exceptions/GlobalExceptionHandler.java:71-75 | No match exactly when no key occurs in the message; a match is the code of some key that occurs in it. |
| GlobalExceptionHandler.ConstraintResponse | src/main/java/com/foroescolar/exceptions/GlobalExceptionHandler.java:111-119 | A 409 on the entity and the body, with the code's own code text and default message and no details. |
| GlobalExceptionHandler.SecurityResponse | src/main/java/com/foroescolar/exceptions/GlobalExceptionHandler.java:106-109 | Always 401 on the entity, with the exception's code; it fails exactly when the message is blank. |
| GlobalExceptionHandler.BaseResponse | src/main/java/com/foroescolar/exceptions/GlobalExceptionHandler.java:149-162 | The exception's own status on the entity and the body, its code, message and details; it fails exactly when the message is blank. |
| GlobalExceptionHandler.ValidationResponse | src/main/java/com/foroescolar/exceptions/GlobalExceptionHandler.java:121-132 | A 400 `VALIDATION_ERROR` with the fixed message, whose details are the field-to-message map. |
| GlobalExceptionHandler.UnexpectedResponse | src/main/java/com/foroescolar/exceptions/GlobalExceptionHandler.java:138-148 | A 500 `INTERNAL_ERROR` with "Error interno del servidor" and no details. |
| GlobalExceptionHandler.MessagesNeverBlank | src/main/java/com/foroescolar/exceptions/GlobalExceptionHandler.java:111-119 | No `ErrorCode` has a blank default message, so a constraint response never fails to build. |
| GlobalExceptionHandler.NonConstraintCauseIsDatabaseError | src/main/java/com/foroescolar/exceptions/GlobalExceptionHandler.java:65-68 | A data-integrity violation not caused by a constraint violation is a 409 database error. |
| GlobalExceptionHandler.ConstraintMapping | src/main/java/com/foroescolar/exceptions/GlobalExceptionHandler.java:28-76 | Always 409: the DNI key alone gives `DUPLICATE_DNI`, the e-mail key alone `DUPLICATE_EMAIL`, neither gives `DATABASE_ERROR`, and both give whichever the map's unspecified order puts first. |
| GlobalExceptionHandler.FirstOfTwo | src/main/java/com/foroescolar/exceptions/GlobalExceptionHandler.java:71-75 | `findFirst` over two entries tries the first key, then the second. |
| GlobalExceptionHandler.ThrownBaseExceptions | src/main/java/com/foroescolar/exceptions/GlobalExceptionHandler.java:35-44 | The most specific handler answers: a security exception gets 401 and its own code; any other application exception gets its own status (400), code, message and details. |
| GlobalExceptionHandler.OthersAreInternal | src/main/java/com/foroescolar/exceptions/GlobalExceptionHandler.java:59-63 | Every exception outside the application hierarchy is a 500 with no details. |
| GlobalExceptionHandler.ValidationFirstWins | src/main/java/com/foroescolar/exceptions/GlobalExceptionHandler.java:46-92 | A validation failure is a 400 whose details name exactly the fields in error, each with the message of its first error. |
| Exceptions.KindStatus | src/main/java/com/foroescolar/exceptions/security/SecurityException.java:9-11 | Both directions: a security exception is constructed with 401, and every other application exception with 400. |
| SchoolEntities.ValidarPassword | src/main/java/com/foroescolar/services/impl/UserServiceImpl.java:114-118 | A password is refused exactly when it is given and shorter than the minimum, and the refusal is the short-password `ForbiddenException`; a null password passes. |
| SchoolEntities.PasswordCases | src/main/java/com/foroescolar/services/impl/UserServiceImpl.java:114-118 | The three cases of the rule, each on its own: null passes, long enough passes, too short is refused. |
| Fecha.Trimestre | src/main/java/com/foroescolar/model/Fecha.java:49 | The quarter is between 1 and 4 and is the one whose three months hold the month. |
| Fecha.Semana | src/main/java/com/foroescolar/model/Fecha.java:50 | The week is between 1 and 5 and is the seven-day block of the month that holds the day. |
| Fecha.NewFecha | src/main/java/com/foroescolar/model/Fecha.java:44-51 | The `Fecha` constructor keeps the date with its year, month and day, and derives the quarter and week that contain it. |
| Fecha.TrimestreMonotone | src/main/java/com/foroescolar/model/Fecha.java:49 | A later month never lies in an earlier quarter. |
| Fecha.TrimestreUnique | src/main/java/com/foroescolar/model/Fecha.java:49 | The quarter is the only value meeting its bounds. |
| Fecha.SemanaMonotone | src/main/java/com/foroescolar/model/Fecha.java:50 | A later day never lies in an earlier week. |
| Fecha.DateLeTotal | src/main/java/com/foroescolar/model/Fecha.java:44-48 | The date order used by the range queries is a total order. |
| GradoEntity.Incremented | src/main/java/com/foroescolar/model/Grado.java:32-50 | `contador++` on a Java `int`: one more below the maximum, wrapping to the minimum at it. |
| GradoEntity.CountsCalls | src/main/java/com/foroescolar/model/Grado.java:32-50 | From zero, `n` increments count exactly `n` while `n` fits an `int`. |
| GradoEntity.WrapsAfterMaxInt | src/main/java/com/foroescolar/model/Grado.java:32-50 | One increment past the maximum wraps the counter to the most negative value. |
| GradoEntity.Grado.constructor | src/main/java/com/foroescolar/model/Grado.java:13-32 | A grade built by the builder or the no-argument constructor starts with counter 0 and no students. |
| GradoEntity.Grado.Load | src/main/java/com/foroescolar/model/Grado.java:18-46 | A grade loaded from storage holds exactly the stored row. |
| GradoEntity.Grado.IncrementarContador | src/main/java/com/foroescolar/model/Grado.java:48-50 | Only the counter changes, and it changes by `Incremented`. |
| SecurityConfiguration.InitializePatternRoleMap | src/main/java/com/foroescolar/config/security/SecurityConfiguration.java:70-113 | The loop of `addPatternRoles` calls builds the map `PutAll` describes over the table in source order. |
| SecurityConfiguration.LastPutWins | src/main/java/com/foroescolar/config/security/SecurityConfiguration.java:110-113 | A key that some put used is in the map and holds the roles of its last put. |
| SecurityConfiguration.PutAllKeys | src/main/java/com/foroescolar/config/security/SecurityConfiguration.java:110-113 | Both directions: a key is in the map exactly when some put used it. |
| SecurityConfiguration.UserAddOverwritten | src/main/java/com/foroescolar/config/security/SecurityConfiguration.java:76-84 | The second put for `/api/user/add` replaces the empty role set by the administrator alone, and `/api/auth/login` keeps its empty set. |
| SecurityConfiguration.FirstMatch | src/main/java/com/foroescolar/config/security/SecurityConfiguration.java:127-135 | The access is that of the first group with a matcher accepting the method and path, and authentication (`anyRequest`) when none does. |
| SecurityConfiguration.Api2Accepts | src/main/java/com/foroescolar/config/security/SecurityConfiguration.java:148-206 | A `/api/a/b` pattern accepts exactly the path `/api/a/b`. |
| SecurityConfiguration.NotUnderFirst | src/main/java/com/foroescolar/config/security/SecurityConfiguration.java:148-206 | A pattern whose first segment is a different literal rejects the path. |
| SecurityConfiguration.NotUnderSecond | src/main/java/com/foroescolar/config/security/SecurityConfiguration.java:148-206 | A pattern under `/api` with a different second literal rejects the path. |
| SecurityConfiguration.FirstMatchStep | src/main/java/com/foroescolar/config/security/SecurityConfiguration.java:127-135 | One step of the first-match search: the first group decides if it accepts, otherwise the rest. |
| SecurityConfiguration.AdminGroupDecides | src/main/java/com/foroescolar/config/security/SecurityConfiguration.java:127-131 | A request the public and self-access groups pass over and an administrator matcher accepts needs the administrator. |
| SecurityConfiguration.PublicIgnores | src/main/java/com/foroescolar/config/security/SecurityConfiguration.java:148-157 | The public group ignores a path under `/api` whose second segment it does not name. |
| SecurityConfiguration.SelfAccessIgnores | src/main/java/com/foroescolar/config/security/SecurityConfiguration.java:159-165 | The self-access group ignores other resources and every method but GET. |
| SecurityConfiguration.UserAddIsPublic | src/main/java/com/foroescolar/config/security/SecurityConfiguration.java:155-174 | `POST /api/user/add` is open to everybody, because the public group comes before the administrator group that also lists it. |
| SecurityConfiguration.AsistenciaAddIsAdminOnly | src/main/java/com/foroescolar/config/security/SecurityConfiguration.java:179-190 | `POST /api/asistencia/add` needs the administrator: the administrator group lists it before the teacher group. |
| SecurityConfiguration.UserGetAllNeedsOnlyAuthentication | src/main/java/com/foroescolar/config/security/SecurityConfiguration.java:127-169 | `GET /api/user/getAll` is matched by the self-access pattern `/api/user/{id}` before the administrator entry for that path, which would accept it. So the request needs only authentication. |
| SecurityConfiguration.ProfesorByIdNeedsOnlyAuthentication | src/main/java/com/foroescolar/config/security/SecurityConfiguration.java:162-193 | `GET /api/profesor/{id}` needs only authentication for any id. The self-access group comes before the teacher group's `/api/profesor/**`. |
| SecurityConfiguration.DeleteUnderApiIsAdminOnly | src/main/java/com/foroescolar/config/security/SecurityConfiguration.java:175 | Every DELETE under `/api` needs the administrator. |
| SecurityConfiguration.GradoIsAdminOnly | src/main/java/com/foroescolar/config/security/SecurityConfiguration.java:181-184 | GET, POST, DELETE and PATCH anywhere under `/api/grado` need the administrator. |
| SecurityConfiguration.UnmatchedNeedsAuthentication | src/main/java/com/foroescolar/config/security/SecurityConfiguration.java:135 | A request no group accepts needs authentication. |
| SecurityConfiguration.ReplaceCharIsMap | src/main/java/com/foroescolar/config/security/SecurityConfiguration.java:274 | Replacing one character throughout is a character-wise map. |
| SecurityConfiguration.MapCharAppend | src/main/java/com/foroescolar/config/security/SecurityConfiguration.java:274 | The character-wise map distributes over concatenation. |
| SecurityConfiguration.KeyByCharacters | src/main/java/com/foroescolar/config/security/SecurityConfiguration.java:274 | The three chained replacements equal one character-wise rewriting. |
| SecurityConfiguration.EndpointKeyChars | src/main/java/com/foroescolar/config/security/SecurityConfiguration.java:274 | The metric key is the character-wise rewriting and holds no separator and no brace. |
| SecurityConfiguration.KeyOfClean | src/main/java/com/foroescolar/config/security/SecurityConfiguration.java:274 | The rewritten key holds no '/', '{' or '}'. |
| SecurityService.AdminChecksInverted | src/main/java/com/foroescolar/config/security/SecurityService.java:127-131 | `isAdmin` and `isCurrentUserAdmin` both answer true exactly for a known user who is NOT an administrator. |
| SecurityService.AccessToInformationCases | src/main/java/com/foroescolar/config/security/SecurityService.java:54-73 | `hasAccessToInformation`: oneself and administrators get false and students true. Tutors and teachers get true exactly for the students they do not tutor. |
| SecurityService.ManageAndUpdateAgree | src/main/java/com/foroescolar/config/security/SecurityService.java:75-85 | `canManageGradeAttendance` and `canUpdateAttendance` agree everywhere: administrators always, teachers for the grades they teach, nobody else. |
| SecurityService.ViewAttendanceCases | src/main/java/com/foroescolar/config/security/SecurityService.java:90-105 | `canViewAttendance` grants administrators, the teacher of the attendance's grade and the tutor of its student. It fails exactly when a teacher asks about a missing attendance. |
| SecurityService.ViewGradeExtendsGradeAttendance | src/main/java/com/foroescolar/config/security/SecurityService.java:110-122 | `canViewGrade` fails exactly when `canViewGradeAttendance` does, and it grants what that check grants plus the grade's own students. |
| SecurityService.TutorSeesGradeAttendance | src/main/java/com/foroescolar/config/security/SecurityService.java:118-119 | A tutor of a student in the grade may see the grade's attendance. |
| SecurityService.TutorInfoCases | src/main/java/com/foroescolar/config/security/SecurityService.java:154-168 | `canAccessTutorInfo` grants oneself for any role, then administrators, then a teacher of one of the tutor's students. |
| SecurityService.UpdateTutorCases | src/main/java/com/foroescolar/config/security/SecurityService.java:173-182 | `canUpdateTutor` grants administrators, and a tutor only for itself. |
| SecurityService.UnknownUserRejected | src/main/java/com/foroescolar/config/security/SecurityService.java:45-233 | An unknown user makes every check fail with `UsernameNotFoundException`. |
| GradoService.ValidationErrors | src/main/java/com/foroescolar/services/impl/GradoServiceImp.java:150-169 | Both directions: some message is collected exactly when a column is missing or the aula and turno clash, and the clash message exactly when they clash. |
| GradoService.ValidationOrder | src/main/java/com/foroescolar/services/impl/GradoServiceImp.java:150-169 | One message per missing field in the order aula, curso, turno, materia, with the clash message last. |
| GradoService.GradoServiceImp.ValidateGradoData | src/main/java/com/foroescolar/services/impl/GradoServiceImp.java:150-174 | The list built check by check gives the `ForbiddenException` that `ValidationFailure` describes, or none. |
| GradoService.CreateCases | src/main/java/com/foroescolar/services/impl/GradoServiceImp.java:41-54 | The checks run in order: an existing curso, aula and turno first, then the field validation, then a null teacher id. A failure changes nothing. A created grade is stored under a fresh id with the request's columns, counter 0, no students, and the teacher only if it is stored. |
| GradoService.CreateAllowsClashAsWritten | src/main/java/com/foroescolar/services/impl/GradoServiceImp.java:167 | As written: a request without an id for the aula and turno of a stored grade of another course is accepted, leaving two grades in one aula and turno. |
| GradoService.CreateKeepsAulaTurnoUnique | src/main/java/com/foroescolar/services/impl/GradoServiceImp.java:166-169 | Corrected creation keeps the invariant that no two grades share an aula and a turno. |
| GradoService.GradoServiceImp.constructor | src/main/java/com/foroescolar/services/impl/GradoServiceImp.java:27-31 | A service built over the given repositories holds exactly them. |
| GradoService.GradoServiceImp.CreateGrado | src/main/java/com/foroescolar/services/impl/GradoServiceImp.java:41-54 | The result and new state are those of `Creation`, the corrected creation. |
| GradoService.AssignToTeacherlessFailsAsWritten | src/main/java/com/foroescolar/services/impl/GradoServiceImp.java:129-130 | As written: giving a teacher to a grade that has none fails on the missing teacher's id; the corrected update accepts it. |
| GradoService.UpdateAgreesOutsideTheFinding | src/main/java/com/foroescolar/services/impl/GradoServiceImp.java:111-148 | The written and the corrected update agree except on a grade without a teacher that is given one. |
| GradoService.UpdateEffect | src/main/java/com/foroescolar/services/impl/GradoServiceImp.java:111-148 | An accepted update rewrites only the requested grade. A failed one changes nothing. |
| GradoService.UpdatedFields | src/main/java/com/foroescolar/services/impl/GradoServiceImp.java:117-143 | The update copies exactly aula, curso, turno and materia, replaces the teacher only with a non-null one, and keeps counter and students. |
| GradoService.LoadAfterRewrite | src/main/java/com/foroescolar/services/impl/GradoServiceImp.java:189 | Rewriting one grade adds it to its new teacher's count and never raises any other teacher's count. |
| GradoService.UpdateKeepsLoadBounded | src/main/java/com/foroescolar/services/impl/GradoServiceImp.java:128-193 | Invariant: once no teacher holds more than five grades, no accepted update breaks that. |
| GradoService.GradoServiceImp.Update | src/main/java/com/foroescolar/services/impl/GradoServiceImp.java:111-148 | The result and new state are those of `UpdateGrado`, the corrected update. |
| GradoService.HasActiveAssociations | src/main/java/com/foroescolar/services/impl/GradoServiceImp.java:98-103 | Both directions: true exactly for a stored grade with students or a teacher. |
| GradoService.FindById | src/main/java/com/foroescolar/services/impl/GradoServiceImp.java:57-64 | The stored grade for a known id, and "No se encontró el grado" otherwise. |
| GradoService.DeleteCases | src/main/java/com/foroescolar/services/impl/GradoServiceImp.java:73-79 | An unknown id fails and deletes nothing. A known one removes exactly that grade, after which a lookup fails. |
| GradoService.GradoServiceImp.DeleteById | src/main/java/com/foroescolar/services/impl/GradoServiceImp.java:73-79 | The result and new state are those of `Deletion`. |
| TutorLegalService.FoundCons | src/main/java/com/foroescolar/services/impl/TutorLegalServiceImpl.java:71 | The students `findAllById` finds, split into the head id and the rest. |
| TutorLegalService.DistinctCons | src/main/java/com/foroescolar/services/impl/TutorLegalServiceImpl.java:71-76 | A list is distinct exactly when its tail is and its head does not repeat. |
| TutorLegalService.AllFoundIff | src/main/java/com/foroescolar/services/impl/TutorLegalServiceImpl.java:71-76 | Both directions: the size check `estudiantes.size() == ids.size()` passes exactly when every id is stored and none repeats. |
| TutorLegalService.LinkAll | src/main/java/com/foroescolar/services/impl/TutorLegalServiceImpl.java:79-92 | The linking loop never adds or removes a student. |
| TutorLegalService.LinkAllOutcome | src/main/java/com/foroescolar/services/impl/TutorLegalServiceImpl.java:79-92 | For distinct stored ids the loop gets through exactly when no student has a tutor other than the allowed one. It then links exactly the listed students; otherwise it reports the first refused student with that student's tutor. |
| TutorLegalService.LinkErrStays | src/main/java/com/foroescolar/services/impl/TutorLegalServiceImpl.java:79-92 | Once a prefix of the list is refused, the whole loop is refused the same way. |
| TutorLegalService.UnlinkedKeepsListed | src/main/java/com/foroescolar/services/impl/TutorLegalServiceImpl.java:219-226 | Unlinking the tutor's former students keeps every listed student as it was and adds or removes nobody. |
| TutorLegalService.FindAsistencias | src/main/java/com/foroescolar/services/impl/TutorLegalServiceImpl.java:131-138 | An unknown tutor fails with "Tutor legal no encontrado". A known one gets the attendance query for its students in the grade: a record is returned exactly when it is in the grade and its student has this tutor. |
| TutorLegalService.SaveGuards | src/main/java/com/foroescolar/services/impl/TutorLegalServiceImpl.java:51-70 | The guards in order: DNI, then e-mail, then the password rule. Each failure changes nothing. |
| TutorLegalService.SaveAcceptedIff | src/main/java/com/foroescolar/services/impl/TutorLegalServiceImpl.java:51-104 | Both directions: `save` succeeds exactly when the DNI and e-mail are new, a long enough password is given, and every listed student exists once and has no tutor. A null e-mail is never taken as registered, because the JPQL `=` never matches a null parameter. |
| TutorLegalService.SaveEffect | src/main/java/com/foroescolar/services/impl/TutorLegalServiceImpl.java:59-97 | A saved tutor gets the next id and is active, with the tutor role and the hashed password. Exactly the listed students now have it as tutor; every other student is unchanged. |
| TutorLegalService.SecondSaveRejected | src/main/java/com/foroescolar/services/impl/TutorLegalServiceImpl.java:154-161 | Saving a second tutor with the same DNI is refused. |
| TutorLegalService.UnknownTutor | src/main/java/com/foroescolar/services/impl/TutorLegalServiceImpl.java:123-182 | An unknown tutor fails update, delete and the attendance query alike, with no change. |
| TutorLegalService.UpdateWithoutStudentsKeepsLinks | src/main/java/com/foroescolar/services/impl/TutorLegalServiceImpl.java:165-197 | A null or empty student list leaves every link as it was. |
| TutorLegalService.UpdateRelinks | src/main/java/com/foroescolar/services/impl/TutorLegalServiceImpl.java:199-244 | With a non-empty list of distinct stored students, `update` succeeds exactly when none has another tutor. Afterwards the tutor's students are exactly the listed ones, links of other tutors are untouched, and only the tutor column of a student changes. |
| TutorLegalService.UpdateRefusesOtherTutor | src/main/java/com/foroescolar/services/impl/TutorLegalServiceImpl.java:236-244 | A listed student linked to another tutor makes `update` fail with the wrapped "already tutored" message, with no change. |
| TutorLegalService.DeleteEffect | src/main/java/com/foroescolar/services/impl/TutorLegalServiceImpl.java:123-127 | Deleting a tutor removes it and, by cascade, exactly its students, and nothing else. |
| TutorLegalService.TutorLegalServiceImpl.constructor | src/main/java/com/foroescolar/services/impl/TutorLegalServiceImpl.java:39-47 | A service built over the given repositories holds exactly them. |
| TutorLegalService.TutorLegalServiceImpl.Vincular | src/main/java/com/foroescolar/services/impl/TutorLegalServiceImpl.java:228-234 | The linking loop computes `LinkAll`. |
| TutorLegalService.TutorLegalServiceImpl.Save | src/main/java/com/foroescolar/services/impl/TutorLegalServiceImpl.java:51-104 | The result and new state are those of `SaveTutor`. |
| TutorLegalService.TutorLegalServiceImpl.Update | src/main/java/com/foroescolar/services/impl/TutorLegalServiceImpl.java:165-244 | The result and new state are those of `UpdateTutor`. |
| TutorLegalService.TutorLegalServiceImpl.DeleteById | src/main/java/com/foroescolar/services/impl/TutorLegalServiceImpl.java:123-127 | The result and new state are those of `DeleteTutor`. |
| AsistenciaService.ValueOf | src/main/java/com/foroescolar/services/impl/AsistenciaServiceImpl.java:76 | `EstadoAsistencia.valueOf` succeeds exactly on the four constant names, returns the constant of that name, and otherwise throws the "No enum constant" `IllegalArgumentException`. |
| AsistenciaService.ValueOfName | src/main/java/com/foroescolar/services/impl/AsistenciaServiceImpl.java:76 | Every constant is found again from its own name. |
| AsistenciaService.ScanErrStays | src/main/java/com/foroescolar/services/impl/AsistenciaServiceImpl.java:74-94 | Once an entry fails, the loop fails the same way whatever follows it. |
| AsistenciaService.AcceptedAppend | src/main/java/com/foroescolar/services/impl/AsistenciaServiceImpl.java:74-94 | The reference lists of recorded and misplaced students grow entry by entry: the lists for one more entry are the old lists plus that entry's part. |
| AsistenciaService.ScanOutcome | src/main/java/com/foroescolar/services/impl/AsistenciaServiceImpl.java:74-94 | Both directions: the loop runs to its end exactly when every entry names a known state and a student with a grade. It then yields the reference lists; otherwise it fails with the first bad entry's exception. |
| AsistenciaService.IdTexts | src/main/java/com/foroescolar/services/impl/AsistenciaServiceImpl.java:97-99 | One text per id. |
| AsistenciaService.IdTextsAppend | src/main/java/com/foroescolar/services/impl/AsistenciaServiceImpl.java:97-99 | The id texts grow with the ids. |
| AsistenciaService.JoinAppend | src/main/java/com/foroescolar/services/impl/AsistenciaServiceImpl.java:97-100 | Joining one more part appends the separator and the part. |
| AsistenciaService.ListedIsJoin | src/main/java/com/foroescolar/services/impl/AsistenciaServiceImpl.java:96-100 | After the last two characters are dropped, the ids in the message are joined by ", ". |
| AsistenciaService.RecordsShape | src/main/java/com/foroescolar/services/impl/AsistenciaServiceImpl.java:84-90 | Exactly the ids from the base onward are saved, one per accepted student. Each record carries the default observations, today's date, the grade, the student and its parsed state. |
| AsistenciaService.ByDateRange | src/main/java/com/foroescolar/services/impl/AsistenciaServiceImpl.java:185-198 | The query succeeds exactly when the grade exists and has a record dated within the inclusive range. An unknown grade fails with "Grado no encontrado"; an empty range fails with its own message. |
| AsistenciaService.ByGradeAndTutor | src/main/java/com/foroescolar/services/impl/AsistenciaServiceImpl.java:159-170 | It fails exactly for an unknown grade. Otherwise it returns exactly the records that belong to the grade and to a student the tutor looks after: every returned record qualifies, and every qualifying record is returned. |
| AsistenciaService.RejectedUpFront | src/main/java/com/foroescolar/services/impl/AsistenciaServiceImpl.java:60-66 | An unknown grade and a second roll call on the same day are rejected, and nothing changes. |
| AsistenciaService.FailureChangesNothing | src/main/java/com/foroescolar/services/impl/AsistenciaServiceImpl.java:52-104 | Transaction: a failed roll call leaves every repository as it was. |
| AsistenciaService.AcceptedIff | src/main/java/com/foroescolar/services/impl/AsistenciaServiceImpl.java:54-104 | Both directions: the roll call is accepted exactly when the grade exists, has no record today, and every entry names a known state and a student of this grade. |
| AsistenciaService.OutsideEmptyIff | src/main/java/com/foroescolar/services/impl/AsistenciaServiceImpl.java:81-95 | No student is misplaced exactly when every student is in the grade. |
| AsistenciaService.MisplacedListed | src/main/java/com/foroescolar/services/impl/AsistenciaServiceImpl.java:91-103 | With every entry acceptable but some students in other grades, the call fails with those students' ids in iteration order, and nothing changes. |
| AsistenciaService.AcceptedCommits | src/main/java/com/foroescolar/services/impl/AsistenciaServiceImpl.java:54-104 | An accepted roll call records every student, and its state is the commit of the scan. |
| AsistenciaService.AcceptedBookkeeping | src/main/java/com/foroescolar/services/impl/AsistenciaServiceImpl.java:67-71 | An accepted roll call raises the grade's counter by one, as an `int`, and leaves the other grades and the students alone. It reuses today's `Fecha` or creates exactly that one. |
| AsistenciaService.AcceptedRecords | src/main/java/com/foroescolar/services/impl/AsistenciaServiceImpl.java:74-94 | An accepted roll call adds exactly one record per entry at the next ids, with the parsed state, and keeps the stored records. |
| AsistenciaService.CommittedRecords | src/main/java/com/foroescolar/services/impl/AsistenciaServiceImpl.java:84-90 | The commit adds exactly the accepted records at the next ids and keeps the stored ones. |
| AsistenciaService.AcceptedAll | src/main/java/com/foroescolar/services/impl/AsistenciaServiceImpl.java:74-94 | When every student is in the grade, the accepted list is the entries with their parsed states, in order. |
| AsistenciaService.SecondRollCallRejected | src/main/java/com/foroescolar/services/impl/AsistenciaServiceImpl.java:64-66 | After an accepted roll call with an entry, a second one for the grade on the same day is rejected. |
| AsistenciaService.EmptyRollCallRepeats | src/main/java/com/foroescolar/services/impl/AsistenciaServiceImpl.java:64-71 | An empty roll call writes no record, so it can be repeated the same day, and each repetition raises the counter again. |
| AsistenciaService.RollCallVisibleInRange | src/main/java/com/foroescolar/services/impl/AsistenciaServiceImpl.java:185-198 | The records of an accepted roll call are found by a range query over today. |
| AsistenciaService.UpdateCases | src/main/java/com/foroescolar/services/impl/AsistenciaServiceImpl.java:107-121 | An unknown id fails with its message. A value other than "JUSTIFICADO" or "TARDE" succeeds and changes nothing. Either correction rewrites that one record's state and observations. No other repository changes. |
| AsistenciaService.UpdateIdempotent | src/main/java/com/foroescolar/services/impl/AsistenciaServiceImpl.java:107-121 | Repeating a correction changes nothing more. |
| AsistenciaService.AsistenciaServiceImpl.constructor | src/main/java/com/foroescolar/services/impl/AsistenciaServiceImpl.java:42-50 | A service built over the given repositories holds exactly them. |
| AsistenciaService.AsistenciaServiceImpl.AsistenciaDelDia | src/main/java/com/foroescolar/services/impl/AsistenciaServiceImpl.java:52-104 | The result and new state are those of `RollCall`: saves inside the loop are written only if the transaction commits. |
| AsistenciaService.AsistenciaServiceImpl.Collect | src/main/java/com/foroescolar/services/impl/AsistenciaServiceImpl.java:74-94 | The loop computes the scan of the entries and, when it gets through, saves exactly `Records` of the accepted students. |
| AsistenciaService.AsistenciaServiceImpl.OutsideText | src/main/java/com/foroescolar/services/impl/AsistenciaServiceImpl.java:95-102 | The StringBuilder loop builds exactly the message with the misplaced ids. |
| AsistenciaService.AsistenciaServiceImpl.Update | src/main/java/com/foroescolar/services/impl/AsistenciaServiceImpl.java:107-121 | The result and new state are those of `UpdateRecord`. |
| EstudianteMapper.Estudiante.Load | src/main/java/com/foroescolar/mapper/estudiante/EstudianteMapperBase.java:114-146 | A student entity loaded from a row has that id and exactly that row. |
| EstudianteMapper.OverlayFields | src/main/java/com/foroescolar/mapper/estudiante/EstudianteMapperBase.java:114-146 | Field by field: a given value is taken and a null one keeps the stored value. The role, grade, tutor and the collections are never touched. |
| EstudianteMapper.OverlayEmpty | src/main/java/com/foroescolar/mapper/estudiante/EstudianteMapperBase.java:119-145 | A request with every basic field null changes nothing. |
| EstudianteMapper.OverlayIdempotent | src/main/java/com/foroescolar/mapper/estudiante/EstudianteMapperBase.java:114-146 | Applying the same request twice is the same as applying it once. |
| EstudianteMapper.OverlayOverwrites | src/main/java/com/foroescolar/mapper/estudiante/EstudianteMapperBase.java:119-145 | A request that gives every basic field leaves nothing of the old basic fields: two rows that agree on the untouched fields end up equal. |
| EstudianteMapper.ActualizarCamposBasicos | src/main/java/com/foroescolar/mapper/estudiante/EstudianteMapperBase.java:114-146 | A null entity or request is a no-op. Otherwise the entity's new row is the overlay of the request on its old row. |
| EstudianteMapper.RelationsUpdate | src/main/java/com/foroescolar/mapper/estudiante/EstudianteMapper.java:76-92 | No named grade keeps the current one, a stored one is taken, and an unknown one leaves the student with no grade; the same holds for the tutor. Apart from these two the update is the basic overlay. |
| EstudianteMapper.ActualizarDesdeDTO | src/main/java/com/foroescolar/mapper/estudiante/EstudianteMapper.java:76-92 | A null entity or request is a no-op; otherwise the entity ends as the basic overlay followed by the two relation lookups. |
| EstudianteMapper.CreatedRelations | src/main/java/com/foroescolar/mapper/estudiante/EstudianteMapper.java:45-69 | A created student is active with the request's DNI. It has a grade exactly when the request names a stored one, and then that one; the same holds for the tutor. |
| EstudianteMapper.ListaCases | src/main/java/com/foroescolar/mapper/estudiante/EstudianteMapperBase.java:18-40 | The list view of null is null. Without a grade, the grade id and name are null. With one, they carry the grade's id and a non-null name, the subject when there is one. The id and the active flag are the student's. |
| EstudianteMapper.DetalleCases | src/main/java/com/foroescolar/mapper/estudiante/EstudianteMapperBase.java:46-96 | The detail view of null is null. Each count is its collection's size, or zero for null. The grade and tutor summaries are present exactly when the student has them, with their ids, the grade's subject and the tutor's e-mail. |
| EstudianteMapper.ViewsAgree | src/main/java/com/foroescolar/mapper/estudiante/EstudianteMapperBase.java:18-96 | The list and detail views of one student agree on every field both show, and on the grade id. |
| EstudianteService.CrearCases | src/main/java/com/foroescolar/services/impl/EstudianteServiceImpl.java:94-110 | A stored DNI is refused with `DniDuplicadoException` and nothing saved. Otherwise exactly one student is added under a fresh id, with the request's name, surname and DNI, the student role and active. |
| EstudianteService.CrearKeepsDniUnique | src/main/java/com/foroescolar/services/impl/EstudianteServiceImpl.java:100-108 | Creating a student never gives two students the same DNI. |
| EstudianteService.SecondCrearRejected | src/main/java/com/foroescolar/services/impl/EstudianteServiceImpl.java:100-102 | Submitting the same request twice: the second is refused as a duplicate DNI. |
| EstudianteService.ActualizarCases | src/main/java/com/foroescolar/services/impl/EstudianteServiceImpl.java:112-131 | A null id and an unknown id fail, with no change. A DNI is refused exactly when it is given, differs from the student's own and is stored. Otherwise only that student changes, to the mapper's update. |
| EstudianteService.SameDniAccepted | src/main/java/com/foroescolar/services/impl/EstudianteServiceImpl.java:121-125 | Resubmitting the student's own DNI is never refused. |
| EstudianteService.ActualizarKeepsDniUnique | src/main/java/com/foroescolar/services/impl/EstudianteServiceImpl.java:117-128 | Updating a student never gives two students the same DNI. |
| EstudianteService.EliminarCases | src/main/java/com/foroescolar/services/impl/EstudianteServiceImpl.java:133-141 | An unknown id fails and deletes nothing; a known one removes exactly that student. |
| EstudianteService.ToggleEffect | src/main/java/com/foroescolar/services/impl/EstudianteServiceImpl.java:143-156 | The returned value is the new stored flag, the negation of the old one. The rest of the student and every other student are kept. |
| EstudianteService.ToggleTwiceRestores | src/main/java/com/foroescolar/services/impl/EstudianteServiceImpl.java:143-156 | Toggling twice restores the repository, and the two calls return opposite values. |
| EstudianteService.EntitiesByIdsCases | src/main/java/com/foroescolar/services/impl/EstudianteServiceImpl.java:178-187 | A null or empty list gives no student; otherwise exactly the stored students among the ids. |
| EstudianteService.EstudianteServiceImpl.constructor | src/main/java/com/foroescolar/services/impl/EstudianteServiceImpl.java:36-43 | A service built over the given repositories holds exactly them. |
| EstudianteService.EstudianteServiceImpl.Crear | src/main/java/com/foroescolar/services/impl/EstudianteServiceImpl.java:94-110 | The result and new state are those of `Created`. |
| EstudianteService.EstudianteServiceImpl.Actualizar | src/main/java/com/foroescolar/services/impl/EstudianteServiceImpl.java:112-131 | The result and new state are those of `Updated`. |
| EstudianteService.EstudianteServiceImpl.Eliminar | src/main/java/com/foroescolar/services/impl/EstudianteServiceImpl.java:133-141 | The result and new state are those of `Deleted`. |
| EstudianteService.EstudianteServiceImpl.CambiarEstadoActivo | src/main/java/com/foroescolar/services/impl/EstudianteServiceImpl.java:143-156 | The result and new state are those of `Toggled`. |
| EstudianteService.EstudianteServiceImpl.ObtenerEntidadesPorIds | src/main/java/com/foroescolar/services/impl/EstudianteServiceImpl.java:178-187 | The stored students among the ids; none for a null or empty list. |
| TareaService.SaveCases | src/main/java/com/foroescolar/services/impl/TareaServiceImpl.java:31-50 | A null request fails, and so does one without a student or teacher id, whose stub reference the save refuses. Either failure saves nothing. Otherwise one task is added under a fresh id: active and pending whatever the request says, with its title, student and teacher. The response describes the stored row. |
| TareaService.FindByIdNeverEmpty | src/main/java/com/foroescolar/services/impl/TareaServiceImpl.java:66-74 | The lookup succeeds exactly for a stored task and then is never empty; an unknown one throws "Tarea no encontrada". |
| TareaService.UpdateCases | src/main/java/com/foroescolar/services/impl/TareaServiceImpl.java:52-64 | A null request fails. An unknown task is reported by the lookup's own error, so "Tarea no existente" is never raised. A known task is replaced by the request. |
| TareaService.UpdateWithOwnResponse | src/main/java/com/foroescolar/services/impl/TareaServiceImpl.java:52-64 | Replacing a task by its own response changes nothing. |
| TareaService.DeleteIsSoft | src/main/java/com/foroescolar/services/impl/TareaServiceImpl.java:82-92 | An unknown task fails. A known one stays in the repository, inactive, with its state and every other field unchanged. |
| TareaService.DeleteTwice | src/main/java/com/foroescolar/services/impl/TareaServiceImpl.java:82-92 | Deleting twice is the same as deleting once. |
| TareaService.ValidarCases | src/main/java/com/foroescolar/services/impl/TareaServiceImpl.java:94-105 | Evaluation records the given state, closes the task, keeps its title and student, and reports the state. An unknown task fails with nothing changed. |
| TareaService.MessageNamesState | src/main/java/com/foroescolar/services/impl/TareaServiceImpl.java:104 | Different states give different evaluation messages. |
| TareaService.LifeCycle | src/main/java/com/foroescolar/services/impl/TareaServiceImpl.java:31-105 | A created task is pending and active. After evaluation and deletion it keeps the evaluated state, is inactive, and is still stored. |
| TareaService.Tarea.Load | src/main/java/com/foroescolar/model/Tarea.java:16-34 | A task entity loaded from a row has that id and exactly that row. |
| TareaService.TareaServiceImpl.constructor | src/main/java/com/foroescolar/services/impl/TareaServiceImpl.java:25-28 | A service built over the given repository holds exactly it. |
| TareaService.TareaServiceImpl.Save | src/main/java/com/foroescolar/services/impl/TareaServiceImpl.java:31-50 | The result and new state are those of `Saved`. |
| TareaService.TareaServiceImpl.FindById | src/main/java/com/foroescolar/services/impl/TareaServiceImpl.java:66-74 | The result is `Lookup`, and never an empty optional. |
| TareaService.TareaServiceImpl.UpdateTarea | src/main/java/com/foroescolar/services/impl/TareaServiceImpl.java:52-64 | The result and new state are those of `UpdatedTarea`. |
| TareaService.TareaServiceImpl.DeleteById | src/main/java/com/foroescolar/services/impl/TareaServiceImpl.java:82-92 | The result and new state are those of the soft delete `Deleted`. |
| TareaService.TareaServiceImpl.ValidarTarea | src/main/java/com/foroescolar/services/impl/TareaServiceImpl.java:94-105 | The result and new state are those of `Validated`. |
| UserService.SaveGuards | src/main/java/com/foroescolar/services/impl/UserServiceImpl.java:49-70 | The guards in order: a missing institution when institutions exist, then a registered e-mail. `save` succeeds exactly when both pass and a password is given. A failure changes nothing. |
| UserService.SaveEffect | src/main/java/com/foroescolar/services/impl/UserServiceImpl.java:61-66 | A stored user is an active administrator under a fresh id, with the request's e-mail and its password hashed, and no institution. Every other user is kept. |
| UserService.SaveKeepsEmailUnique | src/main/java/com/foroescolar/services/impl/UserServiceImpl.java:58-65 | Saving never gives two users the same e-mail. |
| UserService.FindByIdNeverEmpty | src/main/java/com/foroescolar/services/impl/UserServiceImpl.java:39-47 | The lookup succeeds exactly for a stored user and then returns it; an unknown one throws "Usuario no encontrado". |
| UserService.DeleteKeepsUserActiveAsWritten | src/main/java/com/foroescolar/services/impl/UserServiceImpl.java:72-80 | As written, the delete reports success and the stored user is still active. |
| UserService.DeleteCases | src/main/java/com/foroescolar/services/impl/UserServiceImpl.java:72-80 | The intended soft delete: an unknown id fails with no change. A known user stays stored, inactive, with every other field and every other user unchanged. |
| UserService.DeleteDiffersOnActive | src/main/java/com/foroescolar/services/impl/UserServiceImpl.java:72-80 | The written and the intended delete give the same result, and leave the same repository exactly when the user was already inactive. |
| UserService.UpdateCases | src/main/java/com/foroescolar/services/impl/UserServiceImpl.java:96-118 | An unknown id fails with no change. The password is checked only when given: a short one is refused with the password message, and a valid one is stored hashed. Without a password the copied user is stored as it is. Other users are kept. |
| UserService.UserServiceImpl.constructor | src/main/java/com/foroescolar/services/impl/UserServiceImpl.java:33-37 | A service built over the given repositories holds exactly them. |
| UserService.UserServiceImpl.FindById | src/main/java/com/foroescolar/services/impl/UserServiceImpl.java:39-47 | The result is `Lookup`, and never an empty optional. |
| UserService.UserServiceImpl.Save | src/main/java/com/foroescolar/services/impl/UserServiceImpl.java:49-70 | The result and new state are those of `Saved`. |
| UserService.UserServiceImpl.DeleteById | src/main/java/com/foroescolar/services/impl/UserServiceImpl.java:72-80 | The result and new state are those of the intended soft delete `Deleted`. |
| UserService.UserServiceImpl.Update | src/main/java/com/foroescolar/services/impl/UserServiceImpl.java:96-112 | The result and new state are those of `Updated`. |
| ProfesorService.SaveCases | src/main/java/com/foroescolar/services/impl/ProfesorServiceImpl.java:40-58 | A registered e-mail is refused, through `DniDuplicadoException`. Then a missing institution id is refused by the mapper's `findById(null)`. `save` succeeds exactly when the e-mail is new, an institution id and a password are given. It then adds one active teacher under a fresh id, with the request's e-mail, institution and the hashed password, and keeps every other teacher. A failure changes nothing. |
| ProfesorService.SaveKeepsEmailUnique | src/main/java/com/foroescolar/services/impl/ProfesorServiceImpl.java:44-51 | Saving never gives two teachers the same e-mail. |
| ProfesorService.UpdateCases | src/main/java/com/foroescolar/services/impl/ProfesorServiceImpl.java:74-111 | An unknown id fails with no change. The password is checked only when given, and a valid one is stored hashed. Without a password the copied teacher is stored as it is. Other teachers are kept. |
| ProfesorService.UpdateNotFoundNamesId | src/main/java/com/foroescolar/services/impl/ProfesorServiceImpl.java:87 | The not-found message names the id: different ids give different messages. |
| ProfesorService.DeleteCases | src/main/java/com/foroescolar/services/impl/ProfesorServiceImpl.java:99-104 | An unknown id fails with no change; a known one removes exactly that teacher. |
| ProfesorService.ProfesorServiceImpl.constructor | src/main/java/com/foroescolar/services/impl/ProfesorServiceImpl.java:34-38 | A service built over the given repository holds exactly it. |
| ProfesorService.ProfesorServiceImpl.Save | src/main/java/com/foroescolar/services/impl/ProfesorServiceImpl.java:40-58 | The result and new state are those of `Saved`. |
| ProfesorService.ProfesorServiceImpl.Update | src/main/java/com/foroescolar/services/impl/ProfesorServiceImpl.java:74-89 | The result and new state are those of `Updated`. |
| ProfesorService.ProfesorServiceImpl.DeleteById | src/main/java/com/foroescolar/services/impl/ProfesorServiceImpl.java:99-104 | The result and new state are those of `Deleted`. |
| JavaText.IntToStringInjective | src/main/java/com/foroescolar/services/impl/ProfesorServiceImpl.java:87 | Different integers have different decimal texts. |
| JavaText.TrimIsTrimmed | src/main/java/com/foroescolar/utils/token/TokenExtractor.java:18 | The result of trim has no leading or trailing character at or below space, and an already trimmed text is its own trim. |
| JavaText.TrimEmptyIffAllTrimChars | src/main/java/com/foroescolar/utils/token/TokenExtractor.java:18-19 | The trim is empty exactly when every character is at most a space. |

## Left out

- Concurrency: the concurrent maps, `synchronized` blocks and `volatile` fields are modelled as sequential state. The executor is modelled as a task queue.
- Background tasks: the cleanup loop's sleeping and the `@Scheduled` triggers are left out. Only the bodies they run are modelled: the sweep, the sync and the pending writes.
- The key-value store is a map from key to presence flag. Each call that may fail takes a flag saying whether the store answered; the client library and key listing are outside the model.
- The store's expiry of blacklist keys is not modelled: `addTokenToBlacklist` writes each key with a time-to-live of `TOKEN_BLACKLIST_DURATION` hours, while the model's store keeps keys forever.
- TokenServiceProperties.PersistedRevocationSyncs: holds only while the written key has not expired in the store; key expiry is not modelled.
- TokenExecutor.DrainPersistsEveryRevocation: "the stored entries stay" holds only within the keys' time-to-live; key expiry is not modelled.
- JWT signing and verification are the parameter `decode`, and BCrypt is `Hashed(raw)`. Both are foreign cryptography; time zones and the token's expiry date computation are not modelled.
- Clocks are parameters (`now`, `today`). Where the code reads the clock twice within one call, both reads are taken to give the same value.
- `RequestLoggingFilter`: the random sampling draw is the parameter `sampled`. The floating-point sample rate, the timers and the MDC entries are not modelled.
- Logging, Micrometer metrics, Jackson serialisation and the servlet objects are left out. The response a filter writes is modelled as its status and error body.
- The percentage calculations of attendance use floating point and are not modelled.
- Ant-style matching: a pattern segment is a literal, a `{name}` variable or `**`, which covers every pattern the security code uses. Wildcards inside a segment, suffix patterns and trailing-slash handling are not modelled.
- The order of the filters in the chain (`addFilterBefore`/`addFilterAfter`) is not modelled; each filter is modelled as one stage.
- Text is `seq<char>`. The code's `length()` counts UTF-16 code units; the model counts characters, and does no case folding or Unicode handling.
- `HashMap` and `Map.of` give no iteration order. `GlobalExceptionHandler`'s constraint lookup is stated for any matching key, and the roll-call entries are taken in a given order.
- `LocalDate` is a triple of year, month and day; calendar validity such as the days in a month is not modelled.
- The classes `EntityNotFoundException`, `ForbiddenException`, the `User`, `Profesor` and `Estudiante` entities and the enums are not part of this model's sources. `ForbiddenException` is taken as not being an `ApplicationException`, so the `catch (ApplicationException)` blocks of `UserServiceImpl.save` and `ProfesorServiceImpl.save` never fire. Enums are taken with the constants the services name.
- `DataIntegrityViolationException` from the database (the catch in `TutorLegalServiceImpl.save`) is not modelled: the model's repositories enforce no constraints beyond those the services check.
- `SecurityService`: a user stored without a role is not modelled.
- Repositories are maps from id to row. Users, teachers and tutors are kept in separate maps, although the persistence layer shares one table between them. `findAllById` returns its students in request order.
- Cascades: deleting a tutor removes its students. The cascades of grade, user and teacher deletion on other tables are not modelled. The reload of the tutor after `save` is not modelled.
- JPQL `=` and `!=` with a null parameter are taken as never true, and derived queries on a null argument as matching a null column.
- Boxed `Long` comparison with `==` in `asistenciaDelDia` is taken as equality of the id values; for ids outside the small-value cache Java compares references.
- Mappers: `UpdatedEntities.update` is the parameter `copied`, and the MapStruct mappers are taken as copying the fields they name. `UserMapper` is taken not to map `institucionId`. The stub teacher that `GradoMapper` creates is not checked against the teacher repository.
- Bean validation on the request records runs in the controller layer and is not modelled.
- Read-only queries the services offer beside the modelled rules are not modelled: every `findAll`, `findByGradoId`, `obtenerDetallePorId`, the summary queries, `findAllStudents`, and `getAsistenciasByEstudianteID` and `getAsistenciasByGrado`. Also left out are the empty `save`, `findById` and `deleteById` stubs of `AsistenciaServiceImpl`, `findGradosByProfesorId`, `findGradosByTutorId`, `existsById` and `hasActiveStudents`. All of these are one repository call mapped to a response.
- Token generation (`generateToken`) and `getCurrentUser` are left out: they sign a new token and read the security context. `CurrentUserId` is modelled.
- GradoService.Create: a null teacher id is reported by the repository's `IllegalArgumentException`. The teacher-load limit is checked only by `update`, as in the code.
- GradoService.CreateCases: `createGrado` builds the grade without setting `institucion`, which the entity declares as a non-null join column, so the save as written fails against that mapping. The model's success branch assumes the grade gets an institution; the institution is not modelled.
- GradoService.CreateAllowsClashAsWritten: the clashing grade is stored only once the missing institution is supplied; as written, the failing save masks the dead clash check.
- TareaService.Saved: a student or teacher id that names no stored row is not checked. The task repository is the only repository of this model, so such a save succeeds here, where the database's foreign key would refuse it.
- ProfesorService.Saved: the new teacher always gets a fresh id, although the mapper copies a request id and `save` would then overwrite that teacher. A null institution id fails in the mapper's `findById`. A non-null one that names no stored institution is stored as given, because the institution repository is not modelled.
- EstudianteService.Created: the returned detail view is reduced to the new id. A null request is not modelled, and a new student's collections are null.
- TutorLegalService.SaveTutor: the columns of `TutorLegal` beyond those shared with `User` are not modelled.
- GradoEntity.Grado.constructor: `institucion` is a non-null column in the code; the model does not check it. The entity leaves its student list null, where the model starts with an empty list.

## Findings

| source | as written | input that shows it | evidently intended | confidence | as-written member | corrected member |
|---|---|---|---|---|---|---|
| src/main/java/com/foroescolar/services/impl/TokenServiceImpl.java:145-159 | `initialize` submits a cleanup loop that never returns to the single-thread executor. `invalidateToken` later submits each store write to the same executor. | Any token revoked after start-up: its write waits behind the loop forever, so the store never holds the revocation. | Revocations reach the store, so other instances see them on sync. | not executed; follows from the executor having one thread | TokenExecutor.RevocationNeverPersisted | TokenExecutor.DrainPersistsEveryRevocation |
| src/main/java/com/foroescolar/services/impl/GradoServiceImp.java:129-130 | `update` reads the existing grade's teacher id to compare it with the request's. | A stored grade with no teacher and a request naming teacher 7: the existing teacher is null and the call throws. | Giving a teacher to a grade without one is a change of teacher, checked against the load limit. | not executed; a `NullPointerException` on the null teacher | GradoService.AssignToTeacherlessFailsAsWritten | GradoService.UpdateKeepsLoadBounded |
| src/main/java/com/foroescolar/services/impl/GradoServiceImp.java:167 | `createGrado` checks aula and turno through `existsByAulaAndTurnoAndIdNot` with the request's id, which is null for a new grade. | A stored grade in aula A1, turno MANANA, and a new request for A1, MANANA in another course: `g.id != null` is never true, so no clash is found. As written the following save also lacks the non-null institution and fails, which masks this; the clash is stored once the institution is set. | No two grades share an aula and a turno. | not executed; follows from SQL null comparison, and is masked as written by the save's missing institution | GradoService.CreateAllowsClashAsWritten | GradoService.CreateKeepsAulaTurnoUnique |
| src/main/java/com/foroescolar/services/impl/UserServiceImpl.java:72-80 | `deleteById` clears the active flag on the loaded user but never saves it, and the method is not transactional. | Deleting stored active user 1: the call succeeds and the stored user is still active. | A soft delete that stores the user as inactive. | not executed; holds unless a caller wraps the call in a transaction | UserService.DeleteKeepsUserActiveAsWritten | UserService.DeleteCases |
