/**
 * The OAuth side of the tracker: the stored credential, what the provider's token
 * endpoint replies, the consent URL, and the test that decides whether a stored
 * access token is still used or is exchanged for a new one.
 */
module OAuth {
  import opened Wrappers

  /** A user key of a credential collection (`userId` or `athleteId`). */
  type Identity = string

  /** A stored credential: `{access_token, refresh_token, expires_at}`, expiry in Unix seconds. */
  datatype Credential = Credential(accessToken: string, refreshToken: string, expiresAt: int)

  /** The `athlete` object of a code-exchange reply; `id` is the provider's user id. */
  datatype Athlete = Athlete(id: Identity)

  /**
   * The JSON body of a successful reply of the token endpoint. A refresh reply has no
   * `athlete`; a code-exchange reply is expected to have one.
   */
  datatype TokenReply = TokenReply(accessToken: string, refreshToken: string, expiresAt: int, athlete: Option<Athlete>)

  /** The payload of a failed provider call. */
  datatype ProviderError = ProviderError(payload: string)

  /** The triple the handlers store from a token reply. */
  function CredentialOf(reply: TokenReply): Credential
  {
    Credential(reply.accessToken, reply.refreshToken, reply.expiresAt)
  }

  // ---------------------------------------------------------------------------
  // The consent URL of `/auth/strava`

  const AuthorizeEndpoint: string := "https://www.strava.com/oauth/authorize?client_id="
  const RedirectField: string := "&response_type=code&redirect_uri="
  const Scope: string := "activity:read_all"
  const UrlTail: string := "&scope=" + Scope + "&approval_prompt=force"

  /**
   * The URL the user is redirected to for consent, built from the client id and the
   * redirect URI (taken here as already encoded), with a fixed scope and forced re-consent.
   */
  function AuthorizeUrl(clientId: string, redirectUri: string): string
  {
    AuthorizeEndpoint + clientId + RedirectField + redirectUri + UrlTail
  }

  /** The longest prefix of `s` without an ampersand. */
  function UpToAmpersand(s: string): (r: string)
    ensures r <= s
    ensures '&' !in r
    ensures |r| < |s| ==> s[|r|] == '&'
  {
    if s == [] || s[0] == '&' then [] else [s[0]] + UpToAmpersand(s[1..])
  }

  /**
   * Reads `(c, r)` back out of `head + c + field + r + tail`, where `c` is taken up to the
   * first ampersand.
   */
  function SplitJoined(head: string, field: string, tail: string, url: string): Option<(string, string)>
  {
    if !(head <= url) then None
    else
      var afterHead := url[|head|..];
      var first := UpToAmpersand(afterHead);
      var afterFirst := afterHead[|first|..];
      if !(field <= afterFirst) || |afterFirst| < |field| + |tail| then None
      else
        var afterField := afterFirst[|field|..];
        var cut := |afterField| - |tail|;
        if afterField[cut..] != tail then None
        else Some((first, afterField[..cut]))
  }

  /** Reads the client id and the redirect URI back out of a consent URL. */
  function ParseAuthorizeUrl(url: string): Option<(string, string)>
  {
    SplitJoined(AuthorizeEndpoint, RedirectField, UrlTail, url)
  }

  lemma {:induction false} UpToAmpersandOfJoin(c: string, t: string)
    requires '&' !in c
    requires |t| > 0 && t[0] == '&'
    ensures UpToAmpersand(c + t) == c
  {
    if c == [] {
      assert c + t == t;
    } else {
      assert (c + t)[0] == c[0];
      assert (c + t)[1..] == c[1..] + t;
      UpToAmpersandOfJoin(c[1..], t);
      assert [c[0]] + c[1..] == c;
    }
  }

  lemma SplitJoinedRoundTrip(head: string, field: string, tail: string, c: string, r: string)
    requires '&' !in c
    requires |field| > 0 && field[0] == '&'
    ensures SplitJoined(head, field, tail, head + c + field + r + tail) == Some((c, r))
  {
    var url := head + c + field + r + tail;
    var afterHead := c + field + r + tail;
    assert url == head + afterHead;
    assert url[|head|..] == afterHead;
    UpToAmpersandOfJoin(c, field + r + tail);
    assert afterHead == c + (field + r + tail);
    var afterFirst := afterHead[|c|..];
    assert afterFirst == field + (r + tail);
    var afterField := afterFirst[|field|..];
    assert afterField == r + tail;
    var cut := |afterField| - |tail|;
    assert afterField[cut..] == tail;
    assert afterField[..cut] == r;
  }

  lemma SplitJoinedSound(head: string, field: string, tail: string, url: string, c: string, r: string)
    requires SplitJoined(head, field, tail, url) == Some((c, r))
    ensures url == head + c + field + r + tail
  {
    var afterHead := url[|head|..];
    assert url == head + afterHead;
    var afterFirst := afterHead[|c|..];
    assert afterHead == c + afterFirst;
    var afterField := afterFirst[|field|..];
    assert afterFirst == field + afterField;
    assert afterField == r + tail;
  }

  /** A consent URL whose client id has no ampersand gives back both of its inputs. */
  lemma ParseAuthorizeUrlRoundTrip(clientId: string, redirectUri: string)
    requires '&' !in clientId
    ensures ParseAuthorizeUrl(AuthorizeUrl(clientId, redirectUri)) == Some((clientId, redirectUri))
  {
    assert RedirectField[0] == '&';
    SplitJoinedRoundTrip(AuthorizeEndpoint, RedirectField, UrlTail, clientId, redirectUri);
  }

  /** Only consent URLs parse: whatever parses is the URL built from what it yields. */
  lemma ParsedIsAuthorizeUrl(url: string, clientId: string, redirectUri: string)
    requires ParseAuthorizeUrl(url) == Some((clientId, redirectUri))
    ensures url == AuthorizeUrl(clientId, redirectUri)
  {
    SplitJoinedSound(AuthorizeEndpoint, RedirectField, UrlTail, url, clientId, redirectUri);
  }

  /** Distinct configurations (client ids without an ampersand) give distinct consent URLs. */
  lemma AuthorizeUrlInjective(c1: string, r1: string, c2: string, r2: string)
    requires '&' !in c1 && '&' !in c2
    requires AuthorizeUrl(c1, r1) == AuthorizeUrl(c2, r2)
    ensures c1 == c2 && r1 == r2
  {
    ParseAuthorizeUrlRoundTrip(c1, r1);
    ParseAuthorizeUrlRoundTrip(c2, r2);
  }

  // ---------------------------------------------------------------------------
  // Expiry

  /** `Math.floor(Date.now() / 1000)`: the clock in whole Unix seconds. */
  function NowSeconds(nowMs: int): int
  {
    nowMs / 1000
  }

  /** The test of `/fetch-activities`: a non-zero expiry that the clock has reached. */
  predicate RefreshDue(expiresAt: int, nowSec: int)
  {
    expiresAt != 0 && nowSec >= expiresAt
  }

  /** The test of `/activities/:athleteId`: unfloored seconds against the expiry, no zero guard. */
  predicate RefreshDueUnfloored(expiresAt: int, nowMs: int)
  {
    (nowMs as real) / 1000.0 >= expiresAt as real
  }

  /** The refresh threshold is inclusive: at the expiry second it refreshes, one second earlier it does not. */
  lemma RefreshThreshold(expiresAt: int)
    requires expiresAt != 0
    ensures RefreshDue(expiresAt, expiresAt)
    ensures !RefreshDue(expiresAt, expiresAt - 1)
  {
  }

  /** An expiry of zero (unset) never triggers a refresh in `/fetch-activities`. */
  lemma UnsetExpiryNeverRefreshes(nowSec: int)
    ensures !RefreshDue(0, nowSec)
  {
  }

  /** Comparing unfloored seconds with an integral expiry is the same as comparing floored seconds. */
  lemma UnflooredMatchesFloored(expiresAt: int, nowMs: int)
    ensures RefreshDueUnfloored(expiresAt, nowMs) <==> NowSeconds(nowMs) >= expiresAt
  {
    var q := nowMs / 1000;
    var rm := nowMs % 1000;
    assert nowMs == 1000 * q + rm;
    assert 0 <= rm < 1000;
    var exact := (nowMs as real) / 1000.0;
    assert exact == q as real + (rm as real) / 1000.0;
    assert q as real <= exact < q as real + 1.0;
  }

  /**
   * The two handlers' tests agree whenever the expiry is set, and differ for an expiry of
   * zero: `/activities/:athleteId` then refreshes at every non-negative clock reading.
   */
  lemma RefreshTestsCompared(expiresAt: int, nowMs: int)
    ensures expiresAt != 0 ==> (RefreshDueUnfloored(expiresAt, nowMs) <==> RefreshDue(expiresAt, NowSeconds(nowMs)))
    ensures RefreshDueUnfloored(0, nowMs) <==> nowMs >= 0
    ensures !RefreshDue(0, NowSeconds(nowMs))
  {
    UnflooredMatchesFloored(expiresAt, nowMs);
    UnflooredMatchesFloored(0, nowMs);
  }

  // ---------------------------------------------------------------------------
  // The refresh decision

  /** What a handler does with the stored credential. */
  datatype Decision =
    | Keep(token: string)          // use the stored access token, no provider call
    | Renew(cred: Credential)      // the provider returned this new triple
    | Abort(error: ProviderError)  // the refresh call failed
  {
    /** The access token sent as bearer token to the activities endpoint. */
    function Bearer(): string
      requires !Abort?
    {
      if Keep? then token else cred.accessToken
    }
  }

  /**
   * The decision, given whether the credential is due and what the refresh-token
   * exchange would reply; the reply is only consulted when the credential is due.
   */
  function Decide(stored: Credential, due: bool, reply: Result<TokenReply, ProviderError>): Decision
  {
    if !due then Keep(stored.accessToken)
    else match reply
      case Ok(data) => Renew(CredentialOf(data))
      case Err(e) => Abort(e)
  }

  /**
   * A credential that is not due is used as stored, and the refresh reply plays no part:
   * any two replies give the same decision.
   */
  lemma DecideIgnoresReplyWhenNotDue(stored: Credential, reply1: Result<TokenReply, ProviderError>, reply2: Result<TokenReply, ProviderError>)
    ensures Decide(stored, false, reply1) == Decide(stored, false, reply2)
    ensures Decide(stored, false, reply1).Bearer() == stored.accessToken
  {
  }
}
