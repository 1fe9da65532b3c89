# Django-utils request filters and model mixins in Dafny

This project models the core of Django-utils: a collection of independent
Django middlewares, two JWT cookie views and four model mixins. It proves
properties of each one in Dafny.

The shared world is in `http.dfy`:
- a `Request` record with path, method, META, cookies, POST data, the TLS flag, whether the user is authenticated, the session and the `version` attribute;
- a `Response` record with status, headers, cookies and content. The content is text, a REST-framework `data` dictionary or a JSON body.

A middleware that may answer on its own returns a `Step`: either `Forward(request)` or `Reply(response)`. The next handler is a function parameter `next: Request -> Response`, so "the handler is not called" shows as a result that does not depend on `next`. Time is an integer count of seconds passed in as `now`.

The form follows the source:
- The cache is a class (`Cache.LocMemCache`) whose `entries` map the middlewares read and overwrite. Each counter middleware is a class holding that cache. Its `Call` method is proved against a pure function of the old cache (`RateLimit.Admit`, `VisitorProfile.Visit`). Properties over many calls are lemmas about replaying that function.
- Middlewares that update the request or response in place are methods with sequential updates. This covers META writes, header and cookie assignments, the POST rewrite loop and the sitemap accumulator.
- Filters that only decide are functions.
- The models are classes over a table class (`rows`, `nextId`). Their `save`/`delete` are methods. The properties that span several calls are lemmas about pure state functions that the methods' postconditions are tied to.

Framework services are parameters or left uninterpreted:
- `build_absolute_uri`, the URL resolver's patterns, `normalize_email` and the password hasher;
- the JWT serializer's outcome;
- `translation.activate`, recorded as an event list, with the active language handed to the next handler;
- `logout`, which flushes the session and clears the user's authentication.

The rate limiter is not a fixed window counted from a client's first request. It re-arms the 60-second timeout on every accepted request (`middlewares/RateLimitMiddleware.py:52`), so the window closes 60 seconds after the last accepted request. With 100 requests during seconds 0-9, a request at second 61 is rejected, although more than 60 seconds have passed since the first one. `RateLimit.WindowFollowsLastAccepted` and `RateLimit.HundredInTenSecondsThenSixtyOne` state this.

The soft-delete managers have a consequence worth knowing. The only query set with `deleted()` and `restore_all()` is the one behind `active_objects`, and it is already narrowed to unmarked rows. Through it, `deleted()` is always empty and `restore_all()` brings no deleted row back (`SoftDelete.DeletedOfActiveIsEmpty`, `SoftDelete.RestoreAllOfActiveRestoresNothing`).

## Model

| member | source | states |
|---|---|---|
| Cache.LocMemCache.Get | middlewares/RateLimitMiddleware.py:44 | `cache.get(key, default)` is the stored value while the entry lives and the default when it is absent or expired |
| Cache.ReadOwnWrite | middlewares/RateLimitMiddleware.py:44-52 | a value set with a timeout reads back until the timeout runs out and as the default from then on; one set with no timeout always reads back; every other key reads as before |
| Cache.LocMemCache.Set | middlewares/RateLimitMiddleware.py:52 | `cache.set` overwrites one key with the value and an expiry `timeout` seconds from now (never, for `None`) and touches no other key |
| RateLimit.CacheKey | middlewares/RateLimitMiddleware.py:42 | the counter key is `rate_limit_` followed by REMOTE_ADDR as formatted (`None` when missing) |
| RateLimit.Admit | middlewares/RateLimitMiddleware.py:44-52 | a request is let through iff the live count (absent or expired reads 0) is below 100; on rejection the cache is unchanged; on acceptance the key holds count+1 expiring 60 s from now; every other key keeps its entry |
| RateLimit.RateLimitMiddleware.Call | middlewares/RateLimitMiddleware.py:40-55 | the cache after the call and the decision are `Admit` of the old cache at the key `rate_limit_<REMOTE_ADDR>`; the response is the handler's when let through, else 429 "Too many requests" |
| RateLimit.MissingAddressesShareKey | middlewares/RateLimitMiddleware.py:40-42 | requests without REMOTE_ADDR all use `rate_limit_None`, the same key as the address written "None" |
| RateLimit.AddressesHaveOwnKeys | middlewares/RateLimitMiddleware.py:40-42 | distinct present addresses get distinct counter keys |
| RateLimit.AdmitKeepsBounded | middlewares/RateLimitMiddleware.py:47-52 | if every rate counter is at most 100 before a call, it still is after |
| RateLimit.ExpiredCounterAdmits | middlewares/RateLimitMiddleware.py:44-52 | an absent or expired counter always admits and restarts at 1 expiring 60 s later |
| RateLimit.RejectionDoesNotExtend | middlewares/RateLimitMiddleware.py:47-49 | a rejected request leaves the cache, and so the expiry, untouched |
| RateLimit.BurstFrom | middlewares/RateLimitMiddleware.py:44-52 | for requests within one period of a live counter at c, the i-th is let through iff c+i < 100; the count ends at min(c+n, 100); when all pass the expiry is 60 s after the last |
| RateLimit.Burst | middlewares/RateLimitMiddleware.py:22-52 | from no live counter, a burst within 60 s of its first request has exactly its first 100 requests let through |
| RateLimit.WindowFollowsLastAccepted | middlewares/RateLimitMiddleware.py:47-52 | after a full burst of 100, any request earlier than 60 s after the last accepted one is rejected, even more than 60 s after the first |
| RateLimit.HundredInTenSecondsThenSixtyOne | middlewares/RateLimitMiddleware.py:52 | 100 requests over 10 s then one at second 61 from the same address: that request is rejected |
| VisitorProfile.VisitKey | middlewares/VisitorProfileMiddleware.py:37 | the counter key is `visits_` followed by the path |
| VisitorProfile.Visit | middlewares/VisitorProfileMiddleware.py:37-41 | the `visits_<path>` counter becomes its live value (0 when absent) plus one, stored with no expiry; every other key unchanged |
| VisitorProfile.VisitorProfileMiddleware.Call | middlewares/VisitorProfileMiddleware.py:37-44 | the cache afterwards is `Visit` of the old cache; the handler's response is returned |
| VisitorProfile.VisitsAccumulate | middlewares/VisitorProfileMiddleware.py:39-41 | n visits add exactly n to a non-expiring counter and leave every other key as it was |
| VisitorProfile.VisitsFromEmpty | middlewares/VisitorProfileMiddleware.py:39-41 | from an empty cache, n visits of a path leave its counter at n, readable at any later time |
| VisitorProfile.PathsHaveOwnKeys | middlewares/VisitorProfileMiddleware.py:37 | distinct paths have distinct counter keys |
| VisitorProfile.VisitKeysAreNotRateKeys | middlewares/VisitorProfileMiddleware.py:37 | a visit key never collides with a rate-limit key in the shared cache |
| VisitorProfile.VisitKeepsRateBound | middlewares/VisitorProfileMiddleware.py:41 | counting visits keeps every rate counter within its limit |
| UserSessionExpiry.Logout | middlewares/UserSessionExpiryMiddleware.py:46 | after `logout` the user is anonymous with an empty session, and nothing else in the request changes |
| UserSessionExpiry.Expired | middlewares/UserSessionExpiryMiddleware.py:41-44 | a session without a recorded activity never expires; with one it has expired iff strictly more than the timeout has passed since it |
| UserSessionExpiry.UserSessionExpiryMiddleware.constructor | middlewares/UserSessionExpiryMiddleware.py:23 | the timeout is the configured session cookie age |
| UserSessionExpiry.UserSessionExpiryMiddleware.Call | middlewares/UserSessionExpiryMiddleware.py:39-51 | logout happens iff the user is authenticated and more than the timeout has passed since a recorded activity; unauthenticated requests pass unchanged; authenticated ones leave with `last_activity` = now (in a fresh session after logout); the handler's response is returned |
| UserSessionExpiry.BoundaryIsNotExpired | middlewares/UserSessionExpiryMiddleware.py:44 | an elapsed time exactly equal to the timeout is not an expiry |
| DataSanitization.StripTags | middlewares/DataSanitizationMiddleware.py:41 | `re.sub('<[^>]*>', '', s)` as a left-to-right scan; the result is no longer than the input, uses only its characters and has no match of the pattern left |
| DataSanitization.NoTagUnchanged | middlewares/DataSanitizationMiddleware.py:41 | a value without `<` is unchanged |
| DataSanitization.TagFreeUnchanged | middlewares/DataSanitizationMiddleware.py:41 | a value with no match of the pattern is unchanged |
| DataSanitization.StripTagsIdempotent | middlewares/DataSanitizationMiddleware.py:41 | sanitising twice equals sanitising once |
| DataSanitization.SanitizedPost | middlewares/DataSanitizationMiddleware.py:39-41 | same keys, each value replaced by its sanitised form |
| DataSanitization.Call | middlewares/DataSanitizationMiddleware.py:37-43 | POST and PUT requests go on with `SanitizedPost` of their data (the loop over the keys proves this); other methods go on unchanged |
| DataSanitization.SanitizedPostIdempotent | middlewares/DataSanitizationMiddleware.py:39-41 | sanitising sanitised POST data changes nothing |
| DataSanitization.StripsExample | middlewares/DataSanitizationMiddleware.py:41 | `<b>hi</b>` becomes `hi`; `a<b` (no closing `>`) is kept |
| Sitemap.NamedPatterns | middlewares/SitemapMiddleware.py:36 | the names kept are present, non-empty and come from the pattern list, never more than the patterns |
| Sitemap.NamedPatternsAppend | middlewares/SitemapMiddleware.py:36 | name selection keeps pattern order: it distributes over concatenation |
| Sitemap.Locations | middlewares/SitemapMiddleware.py:41 | one location per name, each the absolute URI of that name |
| Sitemap.Call | middlewares/SitemapMiddleware.py:34-47 | only the exact path `/sitemap.xml` is answered, with the sitemap document of the named patterns' locations as `application/xml` (the accumulating loop proves this); every other path goes on |
| Sitemap.UrlLinesAppend | middlewares/SitemapMiddleware.py:40-41 | the lines of a list of locations are the lines of each part in order |
| Sitemap.UrlLinesCons | middlewares/SitemapMiddleware.py:40-41 | the first location gives the first `<url><loc>…</loc></url>` line |
| Sitemap.DocumentFrame | middlewares/SitemapMiddleware.py:38-43 | the document starts with the XML declaration and `<urlset xmlns=…0.9>` line and ends with `</urlset>`; with no names it is exactly those two |
| Sitemap.ParseUrlLines | middlewares/SitemapMiddleware.py:40-41 | the lines read back to exactly the locations, one per line, when no location contains `<` |
| Sitemap.ParseSitemapDocument | middlewares/SitemapMiddleware.py:38-43 | the whole document reads back to its locations under the same condition |
| TrailingSlash.Target | middlewares/TrailingSlashMiddleware.py:39 | the target ends in `/`, has the path as prefix and is one character longer |
| TrailingSlash.Decide | middlewares/TrailingSlashMiddleware.py:37-41 | a path not ending in `/` and not under `/admin/` gets a 301 to the target; every other request goes on unchanged |
| TrailingSlash.ForwardedPaths | middlewares/TrailingSlashMiddleware.py:37 | paths ending in `/` and paths under `/admin/` are forwarded |
| TrailingSlash.NoRedirectLoop | middlewares/TrailingSlashMiddleware.py:37-39 | a request for a redirect target is forwarded, so redirects never loop |
| HTTPSRedirect.Replace | middlewares/HTTPSRedirectMiddleware.py:38 | `str.replace` as a left-to-right scan: a replacement at least as long as the pattern never shortens the text, and one of equal length keeps its length |
| HTTPSRedirect.SecureUrl | middlewares/HTTPSRedirectMiddleware.py:38 | the rewrite never shortens the URL, and a URL starting with `http://` comes out starting with `https://` |
| HTTPSRedirect.Decide | middlewares/HTTPSRedirectMiddleware.py:36-42 | a secure request goes on; an insecure one gets a 301 whose Location is the absolute URI with every `http://` replaced |
| HTTPSRedirect.ReplaceWithoutOccurrence | middlewares/HTTPSRedirectMiddleware.py:38 | `replace` is the identity on a string without the pattern |
| HTTPSRedirect.SecureUrlOfSecureUrl | middlewares/HTTPSRedirectMiddleware.py:38 | the rewrite leaves a URL without `http://` as it is |
| HTTPSRedirect.SecureUrlNotInsecurePrefix | middlewares/HTTPSRedirectMiddleware.py:38 | the rewritten URL never starts with `http://` |
| HTTPSRedirect.NoInsecureLeft | middlewares/HTTPSRedirectMiddleware.py:38 | the rewritten URL contains no `http://` anywhere |
| HTTPSRedirect.RedirectTarget | middlewares/HTTPSRedirectMiddleware.py:36-40 | the redirect target of an insecure request holds no `http://`, and equals the absolute URI when that held none |
| HTTPSRedirect.RewritesQueryToo | middlewares/HTTPSRedirectMiddleware.py:38 | `http://a/?u=http://b` becomes `https://a/?u=https://b` |
| HTTPSRedirect.ReplacePrefixWithoutOccurrence | middlewares/HTTPSRedirectMiddleware.py:38 | text without `h` in front of the rest is copied unchanged by the rewrite |
| BrowserLanguageDetection.FirstItem | middlewares/BrowserLanguageDetectionMiddleware.py:37 | `split(',')[0]`: a comma-free prefix of the header, the whole header when it has no comma, otherwise stopping right at a comma |
| BrowserLanguageDetection.Detect | middlewares/BrowserLanguageDetectionMiddleware.py:37 | `en` without the header; otherwise a comma-free prefix of it |
| BrowserLanguageDetection.Call | middlewares/BrowserLanguageDetectionMiddleware.py:37-44 | the events are activation of the detected language, the handler's run, then deactivation; the handler runs with the detected language active and its response is returned |
| BrowserLanguageDetection.HandlerRunsUnderDetectedLanguage | middlewares/BrowserLanguageDetectionMiddleware.py:39-43 | the handler runs exactly once, the detected language is the active one when it runs, and no language is left active afterwards, whatever was active before |
| BrowserLanguageDetection.FirstItemUpToComma | middlewares/BrowserLanguageDetectionMiddleware.py:37 | the language is exactly the text before the first comma |
| BrowserLanguageDetection.NoWeightHandling | middlewares/BrowserLanguageDetectionMiddleware.py:37 | `fr-CH;q=0.9, en` yields `fr-CH;q=0.9` and an empty header yields the empty language |
| TokenToAuthorizationHeader.Call | middlewares/TokenToAuthorizationHeaderMiddleware.py:35-40 | a non-empty `accessToken` cookie sets `HTTP_AUTHORIZATION` to `Bearer <token>`, overwriting, with every other META entry and the rest of the request unchanged; otherwise the request is unchanged; it always goes on |
| TokenToAuthorizationHeader.HeaderCarriesToken | middlewares/TokenToAuthorizationHeaderMiddleware.py:38 | dropping the 7-character `Bearer ` gives the cookie back |
| HeaderRemoval.Call | middlewares/HeaderRemovalMiddleware.py:35-39 | META loses exactly the key `X-Powered-By` (so `HTTP_X_POWERED_BY` stays); all other entries and the rest of the request are unchanged; it always goes on |
| HeaderRemoval.RemovalIdempotent | middlewares/HeaderRemovalMiddleware.py:35-39 | after one pass META has no `X-Powered-By`, so a second pass forwards the request unchanged |
| HttpMethodRestriction.Restricted | middlewares/HttpMethodRestrictionMiddleware.py:42-43 | the table search succeeds iff some entry's prefix starts the path and lists the method |
| HttpMethodRestriction.Decide | middlewares/HttpMethodRestrictionMiddleware.py:42-47 | restricted requests get the 405 permitting `GET`; all others go on unchanged |
| HttpMethodRestriction.RefusedExactly | middlewares/HttpMethodRestrictionMiddleware.py:23-45 | with the one table entry, a request is refused iff its path starts with `/admin/sensitive-endpoint/` and its method is POST or DELETE |
| HttpMethodRestriction.RefusalPermitsGet | middlewares/HttpMethodRestrictionMiddleware.py:45 | a refusal is status 405 with `Allow: GET`, whatever method was refused |
| HttpMethodRestriction.PrefixAndCase | middlewares/HttpMethodRestrictionMiddleware.py:43 | sub-paths of the prefix are refused too; a lower-case `post` is not refused |
| IPWhitelist.Decide | middlewares/IPWhitelistMiddleware.py:39-45 | a request goes on unchanged iff REMOTE_ADDR is present and listed; otherwise 403 "Forbidden" |
| IPWhitelist.ExactAddresses | middlewares/IPWhitelistMiddleware.py:21-41 | exactly `127.0.0.1` and `192.168.1.1` pass |
| IPWhitelist.AllowedGetsHandlerResponse | middlewares/IPWhitelistMiddleware.py:41-45 | a listed address gets the handler's response |
| IPWhitelist.LongerAddressRefused | middlewares/IPWhitelistMiddleware.py:41-43 | `127.0.0.10` is refused: no prefix matching |
| CustomErrorPages.Handle | middlewares/CustomErrorPagesMiddleware.py:39-47 | 404 becomes a 302 to `/404/` and 500 a 302 to `/500/`; any other response is returned untouched; the result is never 404 or 500 |
| CustomErrorPages.Call | middlewares/CustomErrorPagesMiddleware.py:37-47 | the handler's response, mapped: never 404 or 500, untouched when it was neither |
| CustomErrorPages.HandleIdempotent | middlewares/CustomErrorPagesMiddleware.py:39-47 | mapping twice equals mapping once |
| JsonResponse.Handle | middlewares/JsonResponseMiddleware.py:39-43 | status 200 on a path under `/api/` wraps the response's `data` in a 200 `application/json` response, failing with AttributeError when the response has no `data`; any other response is returned as it is |
| JsonResponse.Call | middlewares/JsonResponseMiddleware.py:37-43 | the handler is called first; its 200 response on a path under `/api/` becomes the JSON response of its data (AttributeError without data), and any other response is returned as it is |
| JsonResponse.BareApiUnchanged | middlewares/JsonResponseMiddleware.py:39 | `/api` itself is not under the prefix: unchanged |
| JsonResponse.WrapsData | middlewares/JsonResponseMiddleware.py:39-41 | a 200 data response under `/api/` becomes exactly the JSON response of that data, whose body is the data |
| MaintenanceMode.Decide | middlewares/MaintenanceModeMiddleware.py:37-42 | with the flag on, the answer is the 503 maintenance message; with it off, the request goes on unchanged |
| MaintenanceMode.IndependentOfRequest | middlewares/MaintenanceModeMiddleware.py:21-39 | with the flag as constructed, any two requests and any two handlers give the same 503 |
| CORSPreflight.Call | middlewares/CORSPrefightMiddleware.py:40-50 | `OPTIONS` (exact) is answered by a new empty response with the three CORS headers assigned; every other method goes on unchanged |
| CORSPreflight.PreflightHeadersExactly | middlewares/CORSPrefightMiddleware.py:42-46 | that answer is a 200 with empty body and exactly the headers Content-Type, `*`, `GET, POST, OPTIONS`, `Content-Type, Authorization` |
| CookieConsent.Consent | middlewares/CookieConsentMiddleware.py:43 | the consent cookie has value `true`, expires 365 days from now, and has no max-age, no HttpOnly, no Secure and no SameSite |
| CookieConsent.Call | middlewares/CookieConsentMiddleware.py:38-46 | without a non-empty consent cookie, the handler's response gains exactly the `Consent(now)` cookie and nothing else changes; with one (even `false`) the handler's response is returned untouched |
| APIVersioning.Call | middlewares/APIVersioningMiddleware.py:35-40 | the request goes on with `version` set to the header value verbatim, or `v1` without it, and nothing else changed; the handler's response is returned |
| CustomTokenObtainPair.Post | views/CustomTokenObtainPairView.py:35-74 | a failed validation, then a missing `refresh`, then a missing `access` give 400 with the exception text; otherwise a 200 with the access cookie (3600 s) and refresh cookie (86400 s), both httponly, secure, SameSite None, and the data minus both tokens as body |
| CustomTokenObtainPair.TokensMovedToCookies | views/CustomTokenObtainPairView.py:41-68 | on success the body has neither token, keeps every other key, and body plus the two cookie values give back the validated data |
| CustomTokenObtainPair.RefreshOutlivesAccess | views/CustomTokenObtainPairView.py:11-12 | the refresh cookie's age is 24 times the access cookie's 3600 s |
| CustomTokenRefresh.Post | views/CustomTokenRefreshView.py:35-69 | a missing or empty refresh cookie gives 400 "Refresh token missing" whatever the serializer; otherwise the serializer gets exactly `{refresh: cookie}`; InvalidToken gives 400 with its text; any other error escapes; success gives 200 with only the access cookie and the data minus both tokens |
| CustomTokenRefresh.OnlyAccessCookie | views/CustomTokenRefreshView.py:52-62 | the refresh cookie is not re-issued; a result without `access` sets the cookie to the text `None` |
| Http.HeadersAssignedIsMerge | middlewares/CORSHeadersMiddleware.py:37-39 | a run of header assignments leaves the old header map merged with the assigned values, nothing else changed |
| Http.HeadersAssignedIdempotent | middlewares/CORSHeadersMiddleware.py:37-39 | repeating the same header assignments changes nothing more |
| CORSHeaders.Call | middlewares/CORSHeadersMiddleware.py:35-40 | the handler's response with the three Access-Control-Allow headers set (methods `GET, POST, PUT, DELETE, OPTIONS`), overwriting; status, body and other headers unchanged |
| ContentSecurityPolicy.Call | middlewares/ContentSecurityPolicyMiddleware.py:35-38 | the handler's response with `Content-Security-Policy: default-src 'self';`, overwriting; nothing else changed |
| XSSProtection.Call | middlewares/XSSProtectionMiddleware.py:35-38 | the handler's response with `X-XSS-Protection: 1; mode=block`, overwriting; nothing else changed |
| SEOOptimization.Call | middlewares/SEOOptimizationMiddleware.py:35-40 | the handler's response with `X-Robots-Tag: index, follow` and `X-UA-Compatible: IE=edge`, overwriting; nothing else changed |
| CustomHeader.Call | middlewares/CustomHeaderMiddleware.py:35-38 | the handler's response with `X-Custom-Header: MyValue`, overwriting; nothing else changed |
| SoftDelete.SoftDeleted | models/SoftDeleteModel.py:79-80 | a soft-deleted row is marked with the deletion time and keeps its other fields |
| SoftDelete.Restored | models/SoftDeleteModel.py:87-88 | a restored row is unmarked with no deletion time and keeps its other fields |
| SoftDelete.ActiveObjects | models/SoftDeleteModel.py:37-46 | `active_objects` yields exactly the unmarked rows of any table |
| SoftDelete.AllIncludingDeleted | models/SoftDeleteModel.py:66 | `all_including_deleted_objects` yields every row of any table |
| SoftDelete.Deleted | models/SoftDeleteModel.py:19 | `deleted()` keeps exactly the marked rows of the query it narrows |
| SoftDelete.Eval | models/SoftDeleteModel.py:19-46 | a query yields rows of the table unchanged; `filter(is_deleted=b)` keeps exactly its base's rows with that mark |
| SoftDelete.RestoredRows | models/SoftDeleteModel.py:30 | the bulk update unmarks exactly the given rows and leaves the rest |
| SoftDelete.Table.RestoreAll | models/SoftDeleteModel.py:21-30 | `restore_all` applies that update to the query's rows and returns how many it matched |
| SoftDelete.MyModel.constructor | models/SoftDeleteModel.py:60-61 | a new instance is unmarked with no deletion time |
| SoftDelete.MyModel.Save | models/SoftDeleteModel.py:81 | save writes the instance's fields under its key, assigning a fresh key to a new instance |
| SoftDelete.MyModel.Delete | models/SoftDeleteModel.py:68-81 | delete marks the instance with now and saves it; the row stays; `using` and `keep_parents` have no effect |
| SoftDelete.MyModel.Restore | models/SoftDeleteModel.py:83-89 | restore unmarks the instance and saves it |
| SoftDelete.ManagersSplitTheTable | models/SoftDeleteModel.py:46-66 | `active_objects` yields exactly the unmarked rows, `all_including_deleted_objects` every row, and `deleted()` over all rows the marked ones |
| SoftDelete.DeletedOfActiveIsEmpty | models/SoftDeleteModel.py:19-46 | `deleted()` reached through `active_objects` is empty |
| SoftDelete.RestoreAllOfActiveRestoresNothing | models/SoftDeleteModel.py:30-46 | `restore_all()` through `active_objects` changes no marked row, and nothing at all when marks and times agree |
| SoftDelete.RestoreAllOfEveryRow | models/SoftDeleteModel.py:30 | over every row, `restore_all` leaves none marked and counts them all |
| SoftDelete.DeleteThenRestore | models/SoftDeleteModel.py:60-89 | delete then restore puts both marks back to their defaults and changes nothing else; both keep marks and times in agreement |
| Versioned.BumpedVersion | models/VersionedModel.py:52-53 | a truthy key (present, non-zero) adds exactly one; a falsy one adds nothing |
| Versioned.MyModel.constructor | models/VersionedModel.py:20 | a new record starts at version 1 |
| Versioned.WrittenRow | models/VersionedModel.py:18-19 | the row written carries the instance's version, fields and `created_at`, with `updated_at` the write time |
| Versioned.MyModel.BaseSave | models/VersionedModel.py:18-19 | the framework's save stamps `updated_at`, stamps `created_at` only on the first write, and writes exactly that row under the instance's key, every other row unchanged |
| Versioned.MyModel.Save | models/VersionedModel.py:51-54 | the version becomes `BumpedVersion` of the old version and key, the key and version follow `SaveStep`, no other field changes, and the row written under the key carries the bumped version, every other row unchanged |
| Versioned.MyModel.SaveTwice | models/VersionedModel.py:18-54 | a new record saved at time 5 and again at 9 is stored first as version 1 created and updated at 5, then as version 2 created at 5 and updated at 9 |
| Versioned.SavesOfPersisted | models/VersionedModel.py:52-53 | k saves of a persisted record add exactly k and keep the key |
| Versioned.NewRecordCountsSaves | models/VersionedModel.py:20-53 | a new record saved k times is at version k |
| Versioned.VersionNeverDecreases | models/VersionedModel.py:52-53 | saves never lower the version |
| Versioned.ZeroKeyNeverBumps | models/VersionedModel.py:52 | an instance whose key is 0 never has its version raised |
| AuditTrail.Database.CreateAudit | models/AuditTrail.py:19-22 | one entry is appended; without an object id nothing is written and the NOT NULL column fails |
| AuditTrail.MyModel.Save | models/AuditTrail.py:52-54 | after the row is written, exactly one `create` entry with the saved id is appended, for new and existing rows alike |
| AuditTrail.MyModel.Delete | models/AuditTrail.py:67-69 | a `delete` entry with the id is appended, then the row is removed and the key cleared; an unsaved instance fails at the entry and nothing changes |
| AuditTrail.InsertByTime | models/AuditTrail.py:25 | inserting an entry adds exactly that entry |
| AuditTrail.InsertKeepsNewestFirst | models/AuditTrail.py:25 | inserting into a newest-first log keeps it newest first |
| AuditTrail.Ordered | models/AuditTrail.py:25 | the default ordering yields the same entries, newest timestamp first |
| AuditTrail.OrderedIsIdentityOnOrdered | models/AuditTrail.py:25 | a log already newest first is read in its own order |
| CustomUser.BuildUser | models/CustomUser.py:37-97 | the user gets the given email and hashed password, joins now, and takes the field defaults (`is_active` true, `is_staff` and `is_superuser` false) for what the caller did not pass |
| CustomUser.WithSuperuserDefaults | models/CustomUser.py:60-61 | `is_staff` and `is_superuser` become True when the caller left them out and keep the caller's value otherwise; every other field is untouched |
| CustomUser.UserStr | models/CustomUser.py:113 | a user's text is its email |
| CustomUser.UserTable.Insert | models/CustomUser.py:89 | a user whose email is already stored is refused and nothing changes; otherwise it is stored under a new id, keeping emails unique |
| CustomUser.CustomUserManager.CreateUser | models/CustomUser.py:34-40 | a None or empty email raises "The Email field must be set" and saves nothing; otherwise the user built from the normalised email is saved exactly once and returned |
| CustomUser.CustomUserManager.CreateSuperuser | models/CustomUser.py:60-62 | `create_user` with the superuser defaults filled in, so the same email error applies |
| CustomUser.SuperuserFlags | models/CustomUser.py:60-62 | a superuser is staff and superuser unless the caller passed false explicitly; every other field is as `create_user` alone would give |
| CustomUser.SuperuserDefaultsKeepExplicit | models/CustomUser.py:60-61 | explicit caller values survive the defaults, and filling them twice is filling once |
| CustomUser.RegularUserDefaults | models/CustomUser.py:95-97 | a plain user is active, neither staff nor superuser, has blank names and address, and shows up as its email |

## Left out

- Logging-only middlewares are not modelled, because their only effect is a logger call: RequestTiming, UserAgentLogging, UserDeviceLogging, UserActivityLogging, DatabaseQueryLogging, RequestBodyLogging, QueryParameterLogging and ExceptionLogging.
- GeoIP, UserImpersonation and ResponseCompression are not modelled. They depend on an external GeoIP database, a database fetch and `gzip` respectively.
- Locale, Timezone and LanguageSwitcher are not modelled, because their whole effect happens inside the framework.
- The schema-only models and the serializer are not modelled: TaggableModel, Subscription, Payment, FileStorageModel and CustomTokenObtainPairSerializer.
- Framework services are parameters, not definitions: `build_absolute_uri`, URL resolution, `normalize_email`, password hashing, JWT validation, JSON encoding, `logout` and `translation.activate`/`deactivate`.
- Concurrency is out of scope. Calls run one after another, so the read-then-set race on the cache is not modelled.
- The cache is a map with integer expiry against an explicit clock. Eviction, sharing between processes and deletion of expired entries on read are not modelled.
- Times are whole seconds. `datetime`, `total_seconds()` fractions and the 365-day `timedelta` are integer arithmetic in the model.
- UserSessionExpiry.UserSessionExpiryMiddleware.Call treats a stored `last_activity` as present whenever the key exists. The stored value is a datetime, which is always truthy, so the falsy case never arises.
- QueryDict immutability is not modelled. POST data is a mutable map, as the sanitising middleware intends.
- Header names are exact strings. Case-insensitive response-header lookup is not modelled.
- HTTPSRedirect.Decide does not model the framework's checks on redirect URLs or `iri_to_uri` encoding.
- Cookie attributes the framework derives are not modelled. A `max_age` cookie gets no derived `Expires`, and the cookie value is the model's string.
- The token serializer's input parsing is not modelled. `CustomTokenObtainPair.Post` starts from the outcome of `is_valid`, either the data or the exception text.
- Keyword arguments the user model does not know are not modelled, nor are `date_of_birth` and `phone_number`. They carry no logic.
- CustomUser.BuildUser always sets `date_joined` to the creation time. An explicit `date_joined` passed through the extra fields, which the source would store, is not modelled.
- AuditTrail.Ordered places entries with equal timestamps deterministically. The database leaves the order of ties unspecified.
- AuditTrail.MyModel.Save and SoftDelete.MyModel.Save use a single table write for INSERT and UPDATE. Save options such as `using`, `update_fields` and `force_insert` are not modelled.
- Sitemap.ParseSitemapDocument only reads a document back when no location contains `<`. Locations are inserted without XML escaping, so one that does contain `<` ends its `<loc>` early.
