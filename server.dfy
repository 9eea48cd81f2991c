/**
 * The server's state: the three collections as maps held by one object, and the three
 * stateful routes as methods that update them in place. Each method is proved to do what
 * the corresponding function of `Handlers` describes.
 */
module Server {
  import opened Wrappers
  import opened OAuth
  import opened Activities
  import opened Handlers
  import Collections

  class App {
    /** `TokenModel` (collection `strava_tokens`), keyed by `userId`. */
    var tokens: map<Identity, Credential>
    /** `UserToken`, keyed by `athleteId`. */
    var userTokens: map<Identity, Credential>
    /** `ActivityModel` (collection `strava_activities`), keyed by `activity_id`. */
    var activities: map<int, Activity>

    /** The three collections as one value. */
    function State(): Stores
      reads this
    {
      Stores(tokens, userTokens, activities)
    }

    /** A server over empty collections. */
    constructor ()
      ensures tokens == map[] && userTokens == map[] && activities == map[]
    {
      tokens, userTokens, activities := map[], map[], map[];
    }

    /** `/auth/strava/callback` with the query's `code` and the token endpoint's reply. */
    method Callback(code: string, reply: Result<TokenReply, ProviderError>)
      returns (r: Result<Identity, Failure>, calls: seq<ProviderCall>)
      modifies this
      ensures Step(r, calls, State()) == Handlers.Callback(old(State()), code, reply)
    {
      calls := [ExchangeCode(code)];
      if reply.Err? {
        r := Err(ExchangeFailed(reply.error));
        return;
      }
      var data := reply.value;
      if data.athlete.None? {
        r := Err(MissingAthlete);
        return;
      }
      var id := data.athlete.value.id;
      userTokens := Collections.Upsert(userTokens, id, CredentialOf(data));
      r := Ok(id);
    }

    /**
     * `/fetch-activities` with the body's `userId` and `days`, the clock in milliseconds,
     * and the replies of the refresh-token exchange and of the activities endpoint.
     */
    method FetchActivities(
      userId: Option<string>, days: Option<int>, nowMs: int,
      refreshReply: Result<TokenReply, ProviderError>,
      listReply: Result<seq<ProviderActivity>, ProviderError>)
      returns (r: Result<nat, Failure>, calls: seq<ProviderCall>)
      modifies this
      ensures Step(r, calls, State()) == Handlers.FetchActivities(old(State()), userId, days, nowMs, refreshReply, listReply)
    {
      calls := [];
      if !Present(userId) {
        r := Err(MissingUserId);
        return;
      }
      var u := userId.value;
      if u !in tokens {
        r := Err(NoTokens);
        return;
      }
      var stored := tokens[u];
      var nowSec := NowSeconds(nowMs);
      var due := RefreshDue(stored.expiresAt, nowSec);
      var decision := Decide(stored, due, refreshReply);
      if due {
        calls := calls + [RefreshGrant(stored.refreshToken)];
      }
      if decision.Abort? {
        r := Err(RefreshFailed(decision.error));
        return;
      }
      if decision.Renew? {
        tokens := Collections.Upsert(tokens, u, decision.cred);
      }
      var after := LookbackStart(nowSec, days);
      calls := calls + [ListActivities(Some(after), decision.Bearer())];
      if listReply.Err? {
        r := Err(FetchFailed(listReply.error));
        return;
      }
      var batch := listReply.value;
      ghost var before, renewedTokens := activities, tokens;
      var i := 0;
      while i < |batch|
        invariant 0 <= i <= |batch|
        invariant activities == UpsertAll(before, u, batch[..i])
        invariant tokens == renewedTokens
        invariant userTokens == old(userTokens)
      {
        var act := batch[i];
        assert batch[..i + 1][..i] == batch[..i];
        activities := Collections.Upsert(activities, act.id, Record(u, act));
        i := i + 1;
      }
      assert batch[..|batch|] == batch;
      r := Ok(|batch|);
    }

    /**
     * `/activities/:athleteId` with the path's athlete id, the clock in milliseconds, and
     * the replies of the refresh-token exchange and of the activities endpoint.
     */
    method AthleteActivities(
      athleteId: Identity, nowMs: int,
      refreshReply: Result<TokenReply, ProviderError>,
      listReply: Result<seq<ProviderActivity>, ProviderError>)
      returns (r: Result<seq<ProviderActivity>, Failure>, calls: seq<ProviderCall>)
      modifies this
      ensures Step(r, calls, State()) == Handlers.AthleteActivities(old(State()), athleteId, nowMs, refreshReply, listReply)
    {
      calls := [];
      if athleteId !in userTokens {
        r := Err(NotAuthorized);
        return;
      }
      var stored := userTokens[athleteId];
      var due := RefreshDueUnfloored(stored.expiresAt, nowMs);
      var decision := Decide(stored, due, refreshReply);
      if due {
        calls := calls + [RefreshGrant(stored.refreshToken)];
      }
      if decision.Abort? {
        r := Err(RefreshFailed(decision.error));
        return;
      }
      if decision.Renew? {
        userTokens := Collections.UpdateExisting(userTokens, athleteId, decision.cred);
      }
      calls := calls + [ListActivities(None, decision.Bearer())];
      if listReply.Err? {
        r := Err(FetchFailed(listReply.error));
        return;
      }
      r := Ok(listReply.value);
    }
  }
}
