# Strava activity tracker: credential and activity bookkeeping

A model of the bookkeeping in the tracker's Express server (`index.js`): the two
credential collections, the authorization callback that fills one of them, the decision
whether a stored access token is still used or is exchanged through the refresh-token
grant, and the activity sync that upserts the provider's activities into the activity
collection. The provider (Strava) and the document store (MongoDB) are abstract: each
collection is a `map` keyed by its unique field, every provider reply is an input value
(a success payload or an error), and each route returns the provider calls it issues, in
order, so that "refresh exactly when due" and "which bearer token is sent" can be stated.

Files and modules:

- `wrappers.dfy` (`Wrappers`): `Option` and `Result`.
- `collections.dfy` (`Collections`): `findOneAndUpdate` with and without `upsert` on a map.
- `oauth.dfy` (`OAuth`): stored credentials, token-endpoint replies, the consent URL of
  `/auth/strava` and its parser, the two expiry tests, and the refresh decision.
- `activities.dfy` (`Activities`): provider activities, stored activity documents, the
  lookback bound and the effect of the sync's upsert loop (`UpsertAll`).
- `handlers.dfy` (`Handlers`): each stateful route as a function from the stores, the
  request, the clock and the provider replies to the outcome, the calls and the new stores,
  with the lemmas about them; `Run` serves a sequence of requests.
- `server.dfy` (`Server`): class `App` holding the three collections as fields; its
  methods update them in place (the sync with its `for`-loop over the batch as a `while`
  loop) and are proved to produce exactly what the `Handlers` functions describe.

The model follows the code as written:

- Credentials live in two separate collections. The callback writes `UserToken` (keyed by
  `athleteId`); `/fetch-activities` reads and refreshes `TokenModel` (keyed by `userId`).
  `Handlers.RunKeepsTokenUsers` shows that no route adds a `TokenModel` key, so from an empty
  `TokenModel` `/fetch-activities` always stops at its credential lookup
  (`Handlers.FetchNeedsSeededTokens`), whatever callbacks came before.
- One page of activities is fetched; there is no pagination.
- The refresh in `/fetch-activities` is skipped when `expires_at` is zero. The refresh in
  `/activities/:athleteId` compares unfloored seconds and has no zero guard, so an expiry
  of zero refreshes at every non-negative clock reading (`OAuth.RefreshTestsCompared`).
- Refreshes are not serialized per user; each request reads, decides and writes alone.

## Model

| member | source | states |
|---|---|---|
| `Collections.Upsert` | index.js:103-107 | an upsert creates the document when the key is absent and replaces it when present; the key set gains exactly that key and every other key keeps its document |
| `Collections.UpdateExisting` | index.js:207-214 | an update without upsert replaces the document of a present key, leaves an absent key absent, and changes nothing else |
| `Collections.UpsertIdempotent` | index.js:144-148 | repeating an upsert with the same document changes nothing |
| `Collections.UpsertLastWins` | index.js:165-178 | of two upserts under one key the later document is the one kept |
| `Collections.UpdateExistingIsUpsert` | index.js:207-214 | for a key that was just read, the update without upsert is the same write as an upsert |
| `OAuth.CredentialOf` | index.js:101-105 | the triple `{access_token, refresh_token, expires_at}` taken from a token reply, as also at index.js:139-143 and 210-212 |
| `OAuth.AuthorizeUrl` | index.js:83-84 | the consent URL: endpoint, `client_id`, `response_type=code`, `redirect_uri`, the fixed `scope=activity:read_all` and `approval_prompt=force` |
| `OAuth.NowSeconds` | index.js:126 | the clock in whole seconds, `Math.floor(Date.now() / 1000)` |
| `OAuth.RefreshDue` | index.js:128 | the `/fetch-activities` test: a non-zero `expires_at` that `nowSec` has reached |
| `OAuth.RefreshDueUnfloored` | index.js:195 | the `/activities/:athleteId` test: `Date.now() / 1000 >= expires_at`, unfloored and without a zero guard |
| `OAuth.Decide` | index.js:125-152 | keep the stored access token when not due; when due, the provider's new triple on success or the provider's error on failure (also used for index.js:193-214) |
| `OAuth.Decision.Bearer` | index.js:125-159 | the `accessToken` sent as bearer token: the stored one when kept, the reply's when renewed (index.js:193-218 likewise) |
| `OAuth.ParseAuthorizeUrlRoundTrip` | index.js:83-84 | for a client id without `&`, the consent URL carries the client id and the redirect URI recoverably, with the fixed scope `activity:read_all` and `approval_prompt=force` |
| `OAuth.ParsedIsAuthorizeUrl` | index.js:83-84 | every URL the parser accepts is exactly the consent URL of what it yields |
| `OAuth.AuthorizeUrlInjective` | index.js:83-84 | for client ids without `&`, different client ids or redirect URIs give different consent URLs |
| `OAuth.RefreshThreshold` | index.js:128 | with a set expiry, a refresh happens at `now == expires_at` and not at `now == expires_at - 1` |
| `OAuth.UnsetExpiryNeverRefreshes` | index.js:128 | an expiry of zero never triggers a refresh in `/fetch-activities` |
| `OAuth.UnflooredMatchesFloored` | index.js:195 | comparing `Date.now() / 1000` unfloored with an integral expiry is the same as comparing the floored seconds of line 126 |
| `OAuth.DecideIgnoresReplyWhenNotDue` | index.js:125-128 | a credential that is not due is used with its stored access token, and any two refresh replies give the same decision |
| `OAuth.RefreshTestsCompared` | index.js:193-195 | the two routes' expiry tests agree for a set expiry and differ only at expiry zero |
| `Activities.Record` | index.js:165-176 | the activity document written: the request's `userId`, the provider's `id` as `activity_id`, and the provider's other fields copied |
| `Activities.LookbackDays` | index.js:119 | `days` from the request body, 10 only when it is omitted |
| `Activities.LookbackStart` | index.js:155 | `after = nowSec - days * 24 * 3600`, with `days` defaulting to 10 as at index.js:119 |
| `Activities.UpsertAll` | index.js:164-179 | the activity collection after upserting each element of the batch in order under its own id |
| `Activities.LookbackWindow` | index.js:155 | `after` is `days * 86400` seconds before now, ten days when `days` is omitted |
| `Activities.LatestIsLastOccurrence` | index.js:164-179 | the latest payload of an id is found exactly when the batch has that id, and no later element has it |
| `Activities.UpsertAllAt` | index.js:164-179 | after the loop an id is stored iff it was stored or is in the batch; a batch id holds the record of its latest payload for the requesting user; other ids are untouched |
| `Activities.UpsertAllKeys` | index.js:164-179 | the loop adds exactly the batch's ids to the collection's keys |
| `Activities.UpsertAllIdempotent` | index.js:164-179 | re-running the loop over the same batch leaves the collection identical |
| `Activities.UpsertAllConcat` | index.js:164-179 | one batch after another equals their concatenation: for every id the later payload wins |
| `Activities.ResyncAddsOnlyTheNewActivity` | index.js:164-179 | ids 10-12 then 10-13 leave exactly four activities, 10-12 refreshed to the second payloads |
| `Handlers.Present` | index.js:120 | the `if (!userId)` test: a `userId` passes when it is given and not the empty string |
| `Handlers.RefreshCalls` | index.js:131-136 | one refresh-token POST carrying the stored refresh token when due, none otherwise (index.js:196-203 likewise) |
| `Handlers.Callback` | index.js:89-114 | the callback: one code exchange, then an upsert into `UserToken` under the reply's `athlete.id`, or an error with nothing written |
| `Handlers.FetchActivities` | index.js:118-186 | `/fetch-activities`: user checks, the refresh decision on `TokenModel`, one activities fetch after the lookback bound, the upsert loop, the batch length |
| `Handlers.AthleteActivities` | index.js:188-222 | `/activities/:athleteId`: the `UserToken` lookup, the unfloored refresh decision with an update without upsert, one activities fetch passed through |
| `Handlers.CallbackStoresUnderAthleteId` | index.js:89-113 | the callback issues one code exchange; on success it upserts the reply's triple under the reply's `athlete.id` only, leaving other users and other collections alone; on failure nothing changes |
| `Handlers.CallbackKeyIgnoresCode` | index.js:90-107 | the code selects nothing: with the same reply, any code gives the same key and the same stores |
| `Handlers.FetchRejectsUnknownUser` | index.js:119-123 | a missing or empty `userId`, or one without a `TokenModel` document, fails with no provider call and no store change |
| `Handlers.FetchRefreshesExactlyWhenDue` | index.js:125-136 | exactly one refresh call, carrying the stored refresh token, when the floored clock has reached a set expiry; none otherwise; `UserToken` never changes |
| `Handlers.FetchRefreshBoundary` | index.js:126-128 | on the millisecond clock, any instant of the expiry second refreshes and any instant of the second before does not |
| `Handlers.FetchKeepsCredentialNotDue` | index.js:125-128 | without a refresh the stored access token is the bearer token and `TokenModel` is unchanged |
| `Handlers.FetchStoresRefreshedTriple` | index.js:138-148 | after a successful refresh the user's stored triple is the provider's, rotated refresh token included; other users are unchanged; the new access token is sent |
| `Handlers.FetchRefreshFailureWritesNothing` | index.js:149-152 | a failed refresh reports the provider's error, fetches nothing and changes no store |
| `Handlers.FetchUpsertsBatch` | index.js:155-184 | the fetch is bounded by `after`; a failed fetch keeps the activities; a successful one reports the batch length and upserts every batch id with its latest payload and the request's `userId`, other activities untouched |
| `Handlers.FetchTwiceIsIdempotent` | index.js:164-181 | a second successful sync of the same batch leaves the activity collection identical |
| `Handlers.RunKeepsTokenUsers` | index.js:103-107 | over any sequence of requests the set of `TokenModel` users never changes |
| `Handlers.FetchNeedsSeededTokens` | index.js:122-123 | from an empty `TokenModel`, after any requests, `/fetch-activities` fails at the credential lookup |
| `Handlers.AthleteActivitiesRejectsUnknown` | index.js:189-191 | an athlete without a `UserToken` document is refused with no call and no change |
| `Handlers.AthleteActivitiesRefresh` | index.js:193-221 | refresh exactly when the clock reached the expiry or the expiry is zero; success replaces the athlete's triple, no other athlete's, and sends the new token; failure writes nothing; other collections never change; with a usable token the result is the provider's list or `FetchFailed` with its error |
| `Server.App.Callback` | index.js:89-114 | the callback updates the object's collections exactly as `Handlers.Callback` describes |
| `Server.App.FetchActivities` | index.js:118-186 | the route, with its upsert loop, updates the object's collections exactly as `Handlers.FetchActivities` describes |
| `Server.App.AthleteActivities` | index.js:188-222 | the route updates the object's collections exactly as `Handlers.AthleteActivities` describes |

## Left out

- Configuration loading, the service-account JSON parse and `process.exit` (index.js:1-29): process start-up.
- The MongoDB connection and the schema machinery (index.js:32-69): the collections are maps; `required` fields and storage failures are not modelled, so no write can fail.
- The HTTP calls to the provider: their replies are inputs; client id and client secret in the token requests are not tracked.
- The Google Sheets client (index.js:72-79): unused by the routes.
- Express routing, status codes and response bodies: only the success or failure of each route is kept.
- Percent-encoding of the redirect URI at index.js:84: the URI is taken as already encoded.
- The number-to-string cast of `athlete.id` into the `athleteId` field: ids are strings in the model.
- JavaScript truthiness beyond the cases modelled: `userId` is absent or a string, `days` is absent or an integer, `expires_at` is an integer.
- RefreshDueUnfloored: models the double-precision `Date.now() / 1000` of index.js:195 as an exact real quotient; rounding is monotone and an integral `expires_at` is exactly representable, so the comparison agrees for real clock values.
- Activity numeric fields are copied, never computed with; `distance` is a `real` in the model, not a float.
- `/activities/:athleteId` has no error handler; a failed provider call there is modelled as a failed request with nothing further written.
- Concurrent requests and pagination: the code has neither locking nor paging.
