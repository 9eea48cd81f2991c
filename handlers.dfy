/**
 * What each stateful route does, as a function of the stores before the request, the
 * request's inputs, the clock and the provider's replies. Each gives the route's outcome,
 * the provider calls it issues in order, and the stores after it.
 */
module Handlers {
  import opened Wrappers
  import opened OAuth
  import opened Activities
  import Collections

  /** A call to the provider, with the inputs the model tracks. */
  datatype ProviderCall =
    | ExchangeCode(code: string)                      // token endpoint, grant_type=authorization_code
    | RefreshGrant(refreshToken: string)              // token endpoint, grant_type=refresh_token
    | ListActivities(after: Option<int>, bearer: string)  // activities endpoint

  /** Why a route failed. */
  datatype Failure =
    | ExchangeFailed(error: ProviderError)  // the code exchange was rejected
    | MissingAthlete                        // the exchange reply had no `athlete`
    | MissingUserId                         // `/fetch-activities` without a `userId`
    | NoTokens                              // no `TokenModel` document for the `userId`
    | NotAuthorized                         // no `UserToken` document for the athlete
    | RefreshFailed(error: ProviderError)   // the refresh-token exchange was rejected
    | FetchFailed(error: ProviderError)     // the activities endpoint failed

  /**
   * The three collections: `TokenModel` keyed by `userId`, `UserToken` keyed by
   * `athleteId`, and the activity collection keyed by `activity_id`.
   */
  datatype Stores = Stores(
    tokens: map<Identity, Credential>,
    userTokens: map<Identity, Credential>,
    activities: map<int, Activity>)

  /** The outcome of one request. */
  datatype Step<T> = Step(result: Result<T, Failure>, calls: seq<ProviderCall>, stores: Stores)

  /** A `userId` that passes `if (!userId)`: given and not empty. */
  predicate Present(userId: Option<string>)
  {
    userId.Some? && userId.value != ""
  }

  /** The provider calls a refresh decision has issued. */
  function RefreshCalls(stored: Credential, due: bool): seq<ProviderCall>
  {
    if due then [RefreshGrant(stored.refreshToken)] else []
  }

  /** `/auth/strava/callback`: exchange `code`, store the triple under the reply's athlete id. */
  function Callback(s: Stores, code: string, reply: Result<TokenReply, ProviderError>): Step<Identity>
  {
    var calls := [ExchangeCode(code)];
    match reply
    case Err(e) => Step(Err(ExchangeFailed(e)), calls, s)
    case Ok(data) =>
      if data.athlete.None? then Step(Err(MissingAthlete), calls, s)
      else
        var id := data.athlete.value.id;
        Step(Ok(id), calls, s.(userTokens := Collections.Upsert(s.userTokens, id, CredentialOf(data))))
  }

  /**
   * `/fetch-activities`: look up the `TokenModel` credential, refresh it if due, fetch the
   * activities since the lookback bound and upsert each one; the result is the batch length.
   */
  function FetchActivities(
    s: Stores, userId: Option<string>, days: Option<int>, nowMs: int,
    refreshReply: Result<TokenReply, ProviderError>,
    listReply: Result<seq<ProviderActivity>, ProviderError>): Step<nat>
  {
    if !Present(userId) then Step(Err(MissingUserId), [], s)
    else if userId.value !in s.tokens then Step(Err(NoTokens), [], s)
    else
      var u := userId.value;
      var stored := s.tokens[u];
      var nowSec := NowSeconds(nowMs);
      var due := RefreshDue(stored.expiresAt, nowSec);
      var d := Decide(stored, due, refreshReply);
      if d.Abort? then Step(Err(RefreshFailed(d.error)), RefreshCalls(stored, due), s)
      else
        var renewed := if d.Renew? then s.(tokens := Collections.Upsert(s.tokens, u, d.cred)) else s;
        var calls := RefreshCalls(stored, due) + [ListActivities(Some(LookbackStart(nowSec, days)), d.Bearer())];
        match listReply
        case Err(e) => Step(Err(FetchFailed(e)), calls, renewed)
        case Ok(batch) => Step(Ok(|batch|), calls, renewed.(activities := UpsertAll(renewed.activities, u, batch)))
  }

  /**
   * `/activities/:athleteId`: look up the `UserToken` credential, refresh it if due by the
   * unfloored test, and pass the provider's activity list through; no activity is stored.
   */
  function AthleteActivities(
    s: Stores, athleteId: Identity, nowMs: int,
    refreshReply: Result<TokenReply, ProviderError>,
    listReply: Result<seq<ProviderActivity>, ProviderError>): Step<seq<ProviderActivity>>
  {
    if athleteId !in s.userTokens then Step(Err(NotAuthorized), [], s)
    else
      var stored := s.userTokens[athleteId];
      var due := RefreshDueUnfloored(stored.expiresAt, nowMs);
      var d := Decide(stored, due, refreshReply);
      if d.Abort? then Step(Err(RefreshFailed(d.error)), RefreshCalls(stored, due), s)
      else
        var renewed := if d.Renew? then s.(userTokens := Collections.UpdateExisting(s.userTokens, athleteId, d.cred)) else s;
        var calls := RefreshCalls(stored, due) + [ListActivities(None, d.Bearer())];
        match listReply
        case Err(e) => Step(Err(FetchFailed(e)), calls, renewed)
        case Ok(list) => Step(Ok(list), calls, renewed)
  }

  // ---------------------------------------------------------------------------
  // The authorization callback

  /**
   * The callback succeeds exactly when the exchange succeeded with an athlete; it then
   * upserts the reply's triple under the reply's athlete id and touches nothing else.
   * On failure no store changes.
   */
  lemma CallbackStoresUnderAthleteId(s: Stores, code: string, reply: Result<TokenReply, ProviderError>)
    ensures var step := Callback(s, code, reply);
      && step.calls == [ExchangeCode(code)]
      && step.stores.tokens == s.tokens
      && step.stores.activities == s.activities
      && (step.result.Ok? <==> reply.Ok? && reply.value.athlete.Some?)
      && (step.result.Ok? ==>
            && step.result.value == reply.value.athlete.value.id
            && step.stores.userTokens.Keys == s.userTokens.Keys + {step.result.value}
            && step.stores.userTokens[step.result.value]
               == Credential(reply.value.accessToken, reply.value.refreshToken, reply.value.expiresAt)
            && forall other :: other in s.userTokens && other != step.result.value ==>
                 step.stores.userTokens[other] == s.userTokens[other])
      && (step.result.Err? ==> step.stores == s)
  {
  }

  /** The code only reaches the provider: two codes with the same reply store the same credential under the same key. */
  lemma CallbackKeyIgnoresCode(s: Stores, code1: string, code2: string, reply: Result<TokenReply, ProviderError>)
    ensures Callback(s, code1, reply).result == Callback(s, code2, reply).result
    ensures Callback(s, code1, reply).stores == Callback(s, code2, reply).stores
  {
  }

  // ---------------------------------------------------------------------------
  // `/fetch-activities`

  /** A missing `userId`, or one without a `TokenModel` document, fails before any call and changes nothing. */
  lemma FetchRejectsUnknownUser(
    s: Stores, userId: Option<string>, days: Option<int>, nowMs: int,
    refreshReply: Result<TokenReply, ProviderError>, listReply: Result<seq<ProviderActivity>, ProviderError>)
    requires !Present(userId) || userId.value !in s.tokens
    ensures var step := FetchActivities(s, userId, days, nowMs, refreshReply, listReply);
      && step.result == (if Present(userId) then Err(NoTokens) else Err(MissingUserId))
      && step.calls == []
      && step.stores == s
  {
  }

  /**
   * For a known user, exactly one refresh call is issued, with the stored refresh token,
   * when the credential is due by the floored clock, and none otherwise; the user-token
   * collection never changes.
   */
  lemma FetchRefreshesExactlyWhenDue(
    s: Stores, userId: Option<string>, days: Option<int>, nowMs: int,
    refreshReply: Result<TokenReply, ProviderError>, listReply: Result<seq<ProviderActivity>, ProviderError>)
    requires Present(userId) && userId.value in s.tokens
    ensures var step := FetchActivities(s, userId, days, nowMs, refreshReply, listReply);
      var stored := s.tokens[userId.value];
      && step.stores.userTokens == s.userTokens
      && (RefreshDue(stored.expiresAt, NowSeconds(nowMs)) ==>
            |step.calls| > 0 && step.calls[0] == RefreshGrant(stored.refreshToken)
            && forall i :: 1 <= i < |step.calls| ==> !step.calls[i].RefreshGrant?)
      && (!RefreshDue(stored.expiresAt, NowSeconds(nowMs)) ==>
            forall i :: 0 <= i < |step.calls| ==> !step.calls[i].RefreshGrant?)
  {
  }

  /**
   * The boundary, on the millisecond clock: anywhere in the expiry second a set credential
   * is refreshed, anywhere in the second before it is not.
   */
  lemma FetchRefreshBoundary(
    s: Stores, userId: Option<string>, days: Option<int>, ms: int,
    refreshReply: Result<TokenReply, ProviderError>, listReply: Result<seq<ProviderActivity>, ProviderError>)
    requires Present(userId) && userId.value in s.tokens
    requires s.tokens[userId.value].expiresAt != 0
    requires 0 <= ms < 1000
    ensures var e := s.tokens[userId.value].expiresAt;
      && FetchActivities(s, userId, days, 1000 * e + ms, refreshReply, listReply).calls[0]
         == RefreshGrant(s.tokens[userId.value].refreshToken)
      && FetchActivities(s, userId, days, 1000 * (e - 1) + ms, refreshReply, listReply).calls
         == [ListActivities(Some(LookbackStart(e - 1, days)), s.tokens[userId.value].accessToken)]
  {
    var e := s.tokens[userId.value].expiresAt;
    assert NowSeconds(1000 * e + ms) == e;
    assert NowSeconds(1000 * (e - 1) + ms) == e - 1;
  }

  /**
   * A credential that is not due is used as stored: no provider refresh, the stored access
   * token is the bearer token, and the credential collection is unchanged.
   */
  lemma FetchKeepsCredentialNotDue(
    s: Stores, userId: Option<string>, days: Option<int>, nowMs: int,
    refreshReply: Result<TokenReply, ProviderError>, listReply: Result<seq<ProviderActivity>, ProviderError>)
    requires Present(userId) && userId.value in s.tokens
    requires !RefreshDue(s.tokens[userId.value].expiresAt, NowSeconds(nowMs))
    ensures var step := FetchActivities(s, userId, days, nowMs, refreshReply, listReply);
      && step.calls == [ListActivities(Some(LookbackStart(NowSeconds(nowMs), days)), s.tokens[userId.value].accessToken)]
      && step.stores.tokens == s.tokens
  {
  }

  /**
   * A successful refresh replaces the user's triple by the provider's (a rotated refresh
   * token included), leaves every other user's credential alone, and the new access token
   * is the bearer token of the fetch.
   */
  lemma FetchStoresRefreshedTriple(
    s: Stores, userId: Option<string>, days: Option<int>, nowMs: int,
    data: TokenReply, listReply: Result<seq<ProviderActivity>, ProviderError>)
    requires Present(userId) && userId.value in s.tokens
    requires RefreshDue(s.tokens[userId.value].expiresAt, NowSeconds(nowMs))
    ensures var step := FetchActivities(s, userId, days, nowMs, Ok(data), listReply);
      && step.stores.tokens.Keys == s.tokens.Keys
      && step.stores.tokens[userId.value] == Credential(data.accessToken, data.refreshToken, data.expiresAt)
      && (forall other :: other in s.tokens && other != userId.value ==> step.stores.tokens[other] == s.tokens[other])
      && step.calls == [RefreshGrant(s.tokens[userId.value].refreshToken),
                        ListActivities(Some(LookbackStart(NowSeconds(nowMs), days)), data.accessToken)]
  {
  }

  /** A failed refresh reports the provider's error, issues no fetch and writes nothing. */
  lemma FetchRefreshFailureWritesNothing(
    s: Stores, userId: Option<string>, days: Option<int>, nowMs: int,
    error: ProviderError, listReply: Result<seq<ProviderActivity>, ProviderError>)
    requires Present(userId) && userId.value in s.tokens
    requires RefreshDue(s.tokens[userId.value].expiresAt, NowSeconds(nowMs))
    ensures var step := FetchActivities(s, userId, days, nowMs, Err(error), listReply);
      && step.result == Err(RefreshFailed(error))
      && step.calls == [RefreshGrant(s.tokens[userId.value].refreshToken)]
      && step.stores == s
  {
  }

  /**
   * Once a usable token is in hand, the fetch asks for activities after the lookback bound;
   * a failed fetch keeps the activities as they were, a successful one reports the batch
   * length and leaves every batch id holding its latest payload for the requesting user and
   * every other activity untouched.
   */
  lemma FetchUpsertsBatch(
    s: Stores, userId: Option<string>, days: Option<int>, nowMs: int,
    refreshReply: Result<TokenReply, ProviderError>, listReply: Result<seq<ProviderActivity>, ProviderError>, id: int)
    requires Present(userId) && userId.value in s.tokens
    requires !FetchActivities(s, userId, days, nowMs, refreshReply, listReply).result.Err?
          || FetchActivities(s, userId, days, nowMs, refreshReply, listReply).result.error.FetchFailed?
    ensures var step := FetchActivities(s, userId, days, nowMs, refreshReply, listReply);
      && step.calls[|step.calls| - 1].ListActivities?
      && step.calls[|step.calls| - 1].after == Some(NowSeconds(nowMs) - LookbackDays(days) * 86400)
      && (listReply.Err? ==> step.result == Err(FetchFailed(listReply.error)) && step.stores.activities == s.activities)
      && (listReply.Ok? ==>
            && step.result == Ok(|listReply.value|)
            && (id in step.stores.activities <==> id in s.activities || Latest(listReply.value, id).Some?)
            && (Latest(listReply.value, id).Some? ==>
                  step.stores.activities[id] == Record(userId.value, Latest(listReply.value, id).value))
            && (id in s.activities && Latest(listReply.value, id).None? ==>
                  step.stores.activities[id] == s.activities[id]))
  {
    if listReply.Ok? {
      UpsertAllAt(s.activities, userId.value, listReply.value, id);
    }
  }

  /**
   * Syncing the same batch again, after a sync of it succeeded, leaves the activity
   * collection identical, whatever the second refresh does.
   */
  lemma FetchTwiceIsIdempotent(
    s: Stores, userId: Option<string>, days: Option<int>, nowMs1: int, nowMs2: int,
    reply1: Result<TokenReply, ProviderError>, reply2: Result<TokenReply, ProviderError>,
    batch: seq<ProviderActivity>)
    requires FetchActivities(s, userId, days, nowMs1, reply1, Ok(batch)).result.Ok?
    requires FetchActivities(FetchActivities(s, userId, days, nowMs1, reply1, Ok(batch)).stores,
                             userId, days, nowMs2, reply2, Ok(batch)).result.Ok?
    ensures var first := FetchActivities(s, userId, days, nowMs1, reply1, Ok(batch)).stores;
      FetchActivities(first, userId, days, nowMs2, reply2, Ok(batch)).stores.activities == first.activities
  {
    UpsertAllIdempotent(s.activities, userId.value, batch);
  }

  // ---------------------------------------------------------------------------
  // `/activities/:athleteId`

  /** An athlete without a `UserToken` document is refused before any call, with nothing changed. */
  lemma AthleteActivitiesRejectsUnknown(
    s: Stores, athleteId: Identity, nowMs: int,
    refreshReply: Result<TokenReply, ProviderError>, listReply: Result<seq<ProviderActivity>, ProviderError>)
    requires athleteId !in s.userTokens
    ensures AthleteActivities(s, athleteId, nowMs, refreshReply, listReply) == Step(Err(NotAuthorized), [], s)
  {
  }

  /**
   * The route never writes the `TokenModel` or activity collections; it refreshes exactly
   * when the floored clock has reached the expiry or the expiry is zero, and a successful
   * refresh replaces the athlete's triple and no other athlete's; a failed one writes
   * nothing. With a usable token, the provider's list or its error is the result.
   */
  lemma AthleteActivitiesRefresh(
    s: Stores, athleteId: Identity, nowMs: int,
    refreshReply: Result<TokenReply, ProviderError>, listReply: Result<seq<ProviderActivity>, ProviderError>)
    requires athleteId in s.userTokens
    requires nowMs >= 0
    ensures var step := AthleteActivities(s, athleteId, nowMs, refreshReply, listReply);
      var stored := s.userTokens[athleteId];
      var due := stored.expiresAt == 0 || NowSeconds(nowMs) >= stored.expiresAt;
      && step.stores.tokens == s.tokens
      && step.stores.activities == s.activities
      && step.stores.userTokens.Keys == s.userTokens.Keys
      && (due <==> |step.calls| > 0 && step.calls[0] == RefreshGrant(stored.refreshToken))
      && (due && refreshReply.Err? ==> step.result == Err(RefreshFailed(refreshReply.error)) && step.stores == s)
      && (due && refreshReply.Ok? ==>
            step.stores.userTokens[athleteId] == CredentialOf(refreshReply.value)
            && step.calls[1] == ListActivities(None, refreshReply.value.accessToken))
      && (forall other :: other in s.userTokens && other != athleteId ==>
            step.stores.userTokens[other] == s.userTokens[other])
      && (!due ==> step.stores == s && step.calls[0] == ListActivities(None, stored.accessToken))
      && (listReply.Err? && !(due && refreshReply.Err?) ==> step.result == Err(FetchFailed(listReply.error)))
      && (listReply.Ok? && !(due && refreshReply.Err?) ==> step.result == Ok(listReply.value))
  {
    RefreshTestsCompared(s.userTokens[athleteId].expiresAt, nowMs);
    UnflooredMatchesFloored(s.userTokens[athleteId].expiresAt, nowMs);
  }

  // ---------------------------------------------------------------------------
  // Sequences of requests

  /** One request to a stateful route, with the clock and the provider's replies it meets. */
  datatype Request =
    | CallbackRequest(code: string, exchangeReply: Result<TokenReply, ProviderError>)
    | FetchRequest(userId: Option<string>, days: Option<int>, nowMs: int,
                   refreshReply: Result<TokenReply, ProviderError>,
                   listReply: Result<seq<ProviderActivity>, ProviderError>)
    | AthleteRequest(athleteId: Identity, nowMs: int,
                     refreshReply: Result<TokenReply, ProviderError>,
                     listReply: Result<seq<ProviderActivity>, ProviderError>)

  /** The stores after serving one request. */
  function Serve(s: Stores, req: Request): Stores
  {
    match req
    case CallbackRequest(code, reply) => Callback(s, code, reply).stores
    case FetchRequest(userId, days, nowMs, refreshReply, listReply) =>
      FetchActivities(s, userId, days, nowMs, refreshReply, listReply).stores
    case AthleteRequest(athleteId, nowMs, refreshReply, listReply) =>
      AthleteActivities(s, athleteId, nowMs, refreshReply, listReply).stores
  }

  /** The stores after serving the requests one after another. */
  function Run(s: Stores, reqs: seq<Request>): Stores
    decreases |reqs|
  {
    if reqs == [] then s else Run(Serve(s, reqs[0]), reqs[1..])
  }

  /**
   * No route adds or removes a `TokenModel` key: the callback writes only `UserToken`,
   * and `/fetch-activities` only replaces the document it has just read.
   */
  lemma {:induction false} RunKeepsTokenUsers(s: Stores, reqs: seq<Request>)
    ensures Run(s, reqs).tokens.Keys == s.tokens.Keys
    decreases |reqs|
  {
    if reqs != [] {
      RunKeepsTokenUsers(Serve(s, reqs[0]), reqs[1..]);
    }
  }

  /**
   * Hence, starting with an empty `TokenModel`, no sequence of requests (successful
   * callbacks included) lets `/fetch-activities` get past its credential lookup.
   */
  lemma FetchNeedsSeededTokens(
    reqs: seq<Request>, userId: Option<string>, days: Option<int>, nowMs: int,
    refreshReply: Result<TokenReply, ProviderError>, listReply: Result<seq<ProviderActivity>, ProviderError>)
    ensures var s := Run(Stores(map[], map[], map[]), reqs);
      var step := FetchActivities(s, userId, days, nowMs, refreshReply, listReply);
      step.result.Err? && (step.result.error == MissingUserId || step.result.error == NoTokens) && step.stores == s
  {
    RunKeepsTokenUsers(Stores(map[], map[], map[]), reqs);
  }
}
