/**
 * The token cache of the Schedules Direct provider (`GetToken`) and the
 * request transport with its single retry (`Send`).
 *
 * The cache is a map from user name to a name/value pair whose name is the
 * token and whose value is the decimal tick count of the moment it was
 * obtained. A single process-wide time stamp records the last HTTP 400 from
 * the authentication call; for one minute after it no token is requested.
 * Clocks are tick counts (100 ns units) passed in by the caller, and every
 * network call is replaced by the reply it produced.
 */
module Tokens {
  import opened Wrappers
  import opened Text
  import opened Numbers

  const TicksPerMinute: nat := 600_000_000
  /** `TimeSpan.FromHours(20).Ticks`: how long a cached token is reused. */
  const TokenLifetime: nat := 20 * 60 * TicksPerMinute
  /** `DateTime.MaxValue.Ticks`: every clock reading is at most this. */
  const MaxTicks: nat := 3_155_378_975_999_999_999

  /** `NameValuePair` as the cache uses it: Name is the token, Value the tick count as text. */
  datatype NameValuePair = NameValuePair(name: Option<string>, value: Option<string>)

  /** `new NameValuePair()`, inserted for a user seen for the first time. */
  const EmptyPair: NameValuePair := NameValuePair(None, None)

  /** The user name and password of a `ListingsProviderInfo`. */
  datatype Credentials = Credentials(username: Option<string>, password: Option<string>)

  /** What one HTTP request produced: a status code, or an exception before any response. */
  datatype Reply = Reply(status: int) | NoReply

  /** What POST /token produced: a status with the `TokenDto` body, or no response at all. */
  datatype AuthReply = AuthReply(status: int, message: Option<string>, token: Option<string>) | AuthNoReply

  /** The exceptions that leave `GetToken` and `Send`. */
  datatype Failure =
    | HttpError(status: Option<int>)      // HttpRequestException, with its StatusCode if any
    | AuthRejected(message: Option<string>) // the Exception for a TokenDto message other than "OK"
    | RequestAlreadySent                    // InvalidOperationException: a request message is sent at most once

  /** `HttpResponseMessage.IsSuccessStatusCode`. */
  predicate IsSuccessStatus(status: int) {
    200 <= status <= 299
  }

  /** The failure that makes `GetToken` wipe the cache and start the cooldown. */
  predicate IsBadRequest(e: Failure) {
    e == HttpError(Some(400))
  }

  /**
   * `GetTokenInternal`: the token call goes through `Send` without retry, so a
   * non-2xx status throws with that status; a 2xx body yields its token only
   * when its message is exactly "OK".
   */
  function TokenInternal(reply: AuthReply): (r: Result<Option<string>, Failure>)
    ensures r.Success? <==> reply.AuthReply? && IsSuccessStatus(reply.status) && reply.message == Some("OK")
    ensures r.Success? ==> r.value == reply.token
    ensures r.Failure? && IsBadRequest(r.error) <==> reply.AuthReply? && reply.status == 400
  {
    match reply
    case AuthNoReply => Failure(HttpError(None))
    case AuthReply(status, message, token) =>
      if !IsSuccessStatus(status) then Failure(HttpError(Some(status)))
      else if message == Some("OK") then Success(token)
      else Failure(AuthRejected(message))
  }

  /** The token a cache entry still offers at `now`, if any: both parts set and under 20 hours old. */
  function CachedToken(saved: NameValuePair, now: nat): (t: Option<string>)
    ensures t.Some? ==> t == saved.name && t.value != []
  {
    if !IsNullOrEmpty(saved.name) && !IsNullOrEmpty(saved.value) then
      match TryParseInteger(saved.value, Int64Min, Int64Max)
      case Some(ticks) => if now - ticks < TokenLifetime then saved.name else None
      case None => None
    else None
  }

  /** Less than one minute has passed since the last HTTP 400 from the token call. */
  predicate InCooldown(lastErrorResponse: int, now: nat) {
    now - lastErrorResponse < TicksPerMinute
  }

  /** No token is requested for these credentials at `now`. */
  predicate Refused(creds: Credentials, lastErrorResponse: int, now: nat) {
    IsNullOrWhiteSpace(creds.username) || IsNullOrEmpty(creds.password) || InCooldown(lastErrorResponse, now)
  }

  /** The state `GetToken` reads and writes. */
  datatype TokenStore = TokenStore(tokens: map<string, NameValuePair>, lastErrorResponse: int)

  /** The entry a user name has, an absent one reading as an empty pair. */
  function Entry(tokens: map<string, NameValuePair>, user: string): NameValuePair {
    if user in tokens then tokens[user] else EmptyPair
  }

  /** What one `GetToken` call returns, the state it leaves, and whether it called POST /token. */
  datatype Acquisition = Acquisition(result: Result<Option<string>, Failure>, store: TokenStore, contacted: bool)

  /**
   * `GetToken` as a transition. `now` is the clock read before the network
   * call (lines 558 and 574), `later` the clock read after it (586 and 596),
   * `reply` what POST /token would answer.
   */
  function Acquire(store: TokenStore, creds: Credentials, now: nat, later: nat, reply: AuthReply): Acquisition {
    if Refused(creds, store.lastErrorResponse, now) then
      Acquisition(Success(None), store, false)
    else
      var user := creds.username.value;
      var saved := Entry(store.tokens, user);
      var tokens := store.tokens[user := saved];
      match CachedToken(saved, now)
      case Some(t) => Acquisition(Success(Some(t)), TokenStore(tokens, store.lastErrorResponse), false)
      case None =>
        match TokenInternal(reply)
        case Success(t) =>
          Acquisition(Success(t), TokenStore(tokens[user := NameValuePair(t, Some(FormatNat(later)))], store.lastErrorResponse), true)
        case Failure(e) =>
          if IsBadRequest(e) then Acquisition(Failure(e), TokenStore(map[], later), true)
          else Acquisition(Failure(e), TokenStore(tokens, store.lastErrorResponse), true)
  }

  /**
   * `GetToken` returns null without calling the network exactly when the user
   * name is blank, the password is empty or the cooldown is running; whenever
   * it calls the network it did not find a usable cached token.
   */
  lemma NullWithoutNetworkIffRefused(store: TokenStore, creds: Credentials, now: nat, later: nat, reply: AuthReply)
    ensures var a := Acquire(store, creds, now, later, reply);
      (a.result == Success(None) && !a.contacted) <==> Refused(creds, store.lastErrorResponse, now)
    ensures var a := Acquire(store, creds, now, later, reply);
      !a.contacted ==> a.result.Success? && a.store.lastErrorResponse == store.lastErrorResponse
    ensures var a := Acquire(store, creds, now, later, reply);
      a.contacted <==> !Refused(creds, store.lastErrorResponse, now) && CachedToken(Entry(store.tokens, creds.username.value), now).None?
  {
  }

  /**
   * After a refresh at `later` stored a non-empty token, a call at `now2` by
   * the same user reuses it, without a network call, exactly when fewer than
   * 20 hours have passed (the 20-hour mark itself triggers a refresh).
   */
  lemma {:induction false} ReusedIffUnderTwentyHours(store: TokenStore, creds: Credentials, now: nat, later: nat, reply: AuthReply,
                                                     now2: nat, later2: nat, reply2: AuthReply)
    requires later <= MaxTicks
    requires var a := Acquire(store, creds, now, later, reply);
      a.contacted && a.result.Success? && a.result.value.Some? && a.result.value.value != []
    requires !Refused(creds, store.lastErrorResponse, now2)
    ensures var a := Acquire(store, creds, now, later, reply);
      var b := Acquire(a.store, creds, now2, later2, reply2);
      (!b.contacted <==> now2 - later < TokenLifetime)
      && (now2 - later < TokenLifetime ==> b.result == a.result && b.store == a.store)
  {
    var a := Acquire(store, creds, now, later, reply);
    var user := creds.username.value;
    assert a.store.lastErrorResponse == store.lastErrorResponse;
    assert Entry(a.store.tokens, user) == NameValuePair(a.result.value, Some(FormatNat(later)));
    ParseFormatNat(later, Int64Min, Int64Max);
    assert a.store.tokens[user := Entry(a.store.tokens, user)] == a.store.tokens;
  }

  /**
   * A 400 from the token call wipes every user's entry and starts the
   * cooldown at `later`: for the next minute every call, with any
   * credentials, returns null without a network call; after it, any valid
   * credentials reach the network again, since nothing is cached.
   */
  lemma {:induction false} BadRequestStartsCooldown(store: TokenStore, creds: Credentials, now: nat, later: nat, reply: AuthReply,
                                                     creds2: Credentials, now2: nat, later2: nat, reply2: AuthReply)
    requires reply.AuthReply? && reply.status == 400
    requires !Refused(creds, store.lastErrorResponse, now)
    requires CachedToken(Entry(store.tokens, creds.username.value), now).None?
    ensures var a := Acquire(store, creds, now, later, reply);
      a.result == Failure(HttpError(Some(400))) && a.store == TokenStore(map[], later)
    ensures var a := Acquire(store, creds, now, later, reply);
      var b := Acquire(a.store, creds2, now2, later2, reply2);
      (now2 - later < TicksPerMinute ==> b == Acquisition(Success(None), a.store, false))
      && (now2 - later >= TicksPerMinute && !IsNullOrWhiteSpace(creds2.username) && !IsNullOrEmpty(creds2.password)
          ==> b.contacted)
  {
    assert TokenInternal(reply) == Failure(HttpError(Some(400)));
  }

  /**
   * Any other failure of the token call leaves the cooldown time stamp and
   * every user's entry as they were (an absent entry may now be present as
   * an empty pair, which offers no token either).
   */
  lemma OtherFailureKeepsState(store: TokenStore, creds: Credentials, now: nat, later: nat, reply: AuthReply)
    requires var a := Acquire(store, creds, now, later, reply);
      a.result.Failure? && !IsBadRequest(a.result.error)
    ensures var a := Acquire(store, creds, now, later, reply);
      a.contacted && a.store.lastErrorResponse == store.lastErrorResponse
      && a.store.tokens.Keys == store.tokens.Keys + {creds.username.value}
      && forall u :: Entry(a.store.tokens, u) == Entry(store.tokens, u)
  {
  }

  /** A successful refresh stores the token with the time `later` under that user and touches nothing else. */
  lemma SuccessStoresToken(store: TokenStore, creds: Credentials, now: nat, later: nat, reply: AuthReply)
    requires var a := Acquire(store, creds, now, later, reply); a.contacted && a.result.Success?
    ensures var a := Acquire(store, creds, now, later, reply);
      var user := creds.username.value;
      a.result == Success(reply.token)
      && a.store.tokens == store.tokens[user := NameValuePair(reply.token, Some(FormatNat(later)))]
      && a.store.lastErrorResponse == store.lastErrorResponse
  {
  }

  /** The outcome of an attempt that is not retried: 2xx succeeds, anything else throws. */
  function SingleAttempt(reply: Reply): (r: Result<int, Failure>)
    ensures r.Success? <==> reply.Reply? && IsSuccessStatus(reply.status)
    ensures r.Failure? ==> r.error.HttpError? && r.error.status == (if reply.Reply? then Some(reply.status) else None)
  {
    match reply
    case NoReply => Failure(HttpError(None))
    case Reply(status) => if IsSuccessStatus(status) then Success(status) else Failure(HttpError(Some(status)))
  }

  /** `Send` retries exactly when retry is enabled and the first reply is a status below 500 outside 2xx. */
  predicate WillRetry(enableRetry: bool, first: Reply) {
    enableRetry && first.Reply? && !IsSuccessStatus(first.status) && first.status < 500
  }

  /**
   * What one `Send` call returns, the state it leaves, and the token headers
   * of every attempt that reached the network, in order.
   */
  datatype Sending = Sending(result: Result<int, Failure>, store: TokenStore, sent: seq<seq<Option<string>>>)

  /**
   * `Send` as written. Without a retry the first reply decides. A retry
   * empties the cache and calls `GetToken`; when that succeeds, the token is
   * added to the same request message, and handing that message to
   * `SendAsync` a second time throws before any network call.
   */
  function SendSpec(store: TokenStore, headers: seq<Option<string>>, enableRetry: bool, creds: Credentials, first: Reply,
                    now: nat, later: nat, auth: AuthReply): Sending
  {
    if !WillRetry(enableRetry, first) then Sending(SingleAttempt(first), store, [headers])
    else
      var a := Acquire(TokenStore(map[], store.lastErrorResponse), creds, now, later, auth);
      match a.result
      case Failure(e) => Sending(Failure(e), a.store, [headers])
      case Success(_) => Sending(Failure(RequestAlreadySent), a.store, [headers])
  }

  /**
   * `Send` as its retry is evidently meant to work: the request is built
   * afresh with the new token added, and the second attempt, `retry`, is
   * sent without retry.
   */
  function FreshRetrySpec(store: TokenStore, headers: seq<Option<string>>, enableRetry: bool, creds: Credentials, first: Reply,
                          retry: Reply, now: nat, later: nat, auth: AuthReply): Sending
  {
    if !WillRetry(enableRetry, first) then Sending(SingleAttempt(first), store, [headers])
    else
      var a := Acquire(TokenStore(map[], store.lastErrorResponse), creds, now, later, auth);
      match a.result
      case Failure(e) => Sending(Failure(e), a.store, [headers])
      case Success(t) => Sending(SingleAttempt(retry), a.store, [headers, headers + [t]])
  }

  /**
   * As written, only the first attempt ever reaches the network, and `Send`
   * succeeds exactly when the first reply is 2xx: a retry either rethrows
   * the token failure or throws `RequestAlreadySent`.
   */
  lemma RetryNeverSucceeds(store: TokenStore, headers: seq<Option<string>>, enableRetry: bool, creds: Credentials, first: Reply,
                           now: nat, later: nat, auth: AuthReply)
    ensures var s := SendSpec(store, headers, enableRetry, creds, first, now, later, auth);
      s.sent == [headers]
      && (s.result.Success? <==> first.Reply? && IsSuccessStatus(first.status))
      && (WillRetry(enableRetry, first) && Acquire(TokenStore(map[], store.lastErrorResponse), creds, now, later, auth).result.Success?
          ==> s.result == Failure(RequestAlreadySent))
  {
  }

  /**
   * The two versions differ only after a token was acquired for a retry:
   * they agree on every other input, and they always leave the same state.
   */
  lemma SendsAgreeUntilResend(store: TokenStore, headers: seq<Option<string>>, enableRetry: bool, creds: Credentials, first: Reply,
                              retry: Reply, now: nat, later: nat, auth: AuthReply)
    ensures var s := SendSpec(store, headers, enableRetry, creds, first, now, later, auth);
      var f := FreshRetrySpec(store, headers, enableRetry, creds, first, retry, now, later, auth);
      s.store == f.store
      && (!WillRetry(enableRetry, first) || Acquire(TokenStore(map[], store.lastErrorResponse), creds, now, later, auth).result.Failure?
          ==> s == f)
  {
  }

  /**
   * With the request built afresh, a retry whose token call succeeds makes a
   * second attempt carrying the new token, and that attempt's reply decides.
   */
  lemma FreshRetryCanSucceed(store: TokenStore, headers: seq<Option<string>>, enableRetry: bool, creds: Credentials, first: Reply,
                             retry: Reply, now: nat, later: nat, auth: AuthReply)
    requires WillRetry(enableRetry, first)
    requires Acquire(TokenStore(map[], store.lastErrorResponse), creds, now, later, auth).result.Success?
    ensures var t := Acquire(TokenStore(map[], store.lastErrorResponse), creds, now, later, auth).result.value;
      var f := FreshRetrySpec(store, headers, enableRetry, creds, first, retry, now, later, auth);
      f.sent == [headers, headers + [t]]
      && (f.result.Success? <==> retry.Reply? && IsSuccessStatus(retry.status))
  {
  }

  /**
   * An expired token: the first reply is 401, the token call answers "OK"
   * with a new token, and a second attempt would answer 200. As written,
   * `Send` throws `RequestAlreadySent`; rebuilt, the request succeeds.
   */
  lemma {:induction false} ExpiredTokenExample()
    ensures var store := TokenStore(map[], 0);
      var creds := Credentials(Some("user"), Some("secret"));
      var auth := AuthReply(200, Some("OK"), Some("fresh"));
      SendSpec(store, [Some("stale")], true, creds, Reply(401), TicksPerMinute, TicksPerMinute, auth).result
        == Failure(RequestAlreadySent)
      && FreshRetrySpec(store, [Some("stale")], true, creds, Reply(401), Reply(200), TicksPerMinute, TicksPerMinute, auth)
        == Sending(Success(200), TokenStore(map["user" := NameValuePair(Some("fresh"), Some(FormatNat(TicksPerMinute)))], 0),
                   [[Some("stale")], [Some("stale"), Some("fresh")]])
  {
    var creds := Credentials(Some("user"), Some("secret"));
    assert "user"[0] == 'u' && !IsWhiteSpace('u');
    assert !IsNullOrWhiteSpace(creds.username) && !IsNullOrEmpty(creds.password);
    assert !Refused(creds, 0, TicksPerMinute);
    assert Entry(map[], "user") == EmptyPair && CachedToken(EmptyPair, TicksPerMinute).None?;
    assert TokenInternal(AuthReply(200, Some("OK"), Some("fresh"))) == Success(Some("fresh"));
    var stored := NameValuePair(Some("fresh"), Some(FormatNat(TicksPerMinute)));
    assert map[]["user" := EmptyPair]["user" := stored] == map["user" := stored];
    assert Acquire(TokenStore(map[], 0), creds, TicksPerMinute, TicksPerMinute, AuthReply(200, Some("OK"), Some("fresh")))
        == Acquisition(Success(Some("fresh")), TokenStore(map["user" := stored], 0), true);
    assert WillRetry(true, Reply(401)) && SingleAttempt(Reply(200)) == Success(200);
    assert [Some("stale")] + [Some("fresh")] == [Some("stale"), Some("fresh")];
  }

  /** The provider's mutable state: the token cache and the last authentication failure. */
  class SchedulesDirect {
    var tokens: map<string, NameValuePair>
    var lastErrorResponse: int

    /** A new provider: no tokens, and `_lastErrorResponse` is `DateTime.MinValue`. */
    constructor ()
      ensures tokens == map[] && lastErrorResponse == 0
    {
      tokens := map[];
      lastErrorResponse := 0;
    }

    function Store(): TokenStore
      reads this
    {
      TokenStore(tokens, lastErrorResponse)
    }

    /**
     * `GetToken`: returns the token to use (null when none can be had),
     * reusing a cached one under 20 hours old, else calling POST /token.
     * `contacted` tells whether that call was made.
     */
    method GetToken(creds: Credentials, now: nat, later: nat, reply: AuthReply)
      returns (r: Result<Option<string>, Failure>, contacted: bool)
      modifies this
      ensures Acquisition(r, Store(), contacted) == Acquire(old(Store()), creds, now, later, reply)
    {
      var username := creds.username;
      if IsNullOrWhiteSpace(username) {
        return Success(None), false;
      }
      var password := creds.password;
      if IsNullOrEmpty(password) {
        return Success(None), false;
      }
      if now - lastErrorResponse < TicksPerMinute {
        return Success(None), false;
      }
      var user := username.value;
      var savedToken: NameValuePair;
      if user in tokens {
        savedToken := tokens[user];
      } else {
        savedToken := EmptyPair;
        tokens := tokens[user := savedToken];
      }
      if !IsNullOrEmpty(savedToken.name) && !IsNullOrEmpty(savedToken.value) {
        var ticks := TryParseInteger(savedToken.value, Int64Min, Int64Max);
        if ticks.Some? && now - ticks.value < TokenLifetime {
          return Success(savedToken.name), false;
        }
      }
      contacted := true;
      var result := TokenInternal(reply);
      match result {
        case Success(t) =>
          tokens := tokens[user := NameValuePair(t, Some(FormatNat(later)))];
          r := Success(t);
        case Failure(e) =>
          if e.HttpError? && e.status == Some(400) {
            tokens := map[];
            lastErrorResponse := later;
          }
          r := Failure(e);
      }
    }

    /**
     * `Send` as written: one attempt with the request's token headers
     * `headers`; on a non-2xx status below 500 with retry enabled, it clears
     * the whole cache, gets a token anew, adds it to the same request and
     * re-enters itself, where `SendAsync` refuses the already-sent request.
     */
    method Send(headers: seq<Option<string>>, enableRetry: bool, creds: Credentials, first: Reply,
                now: nat, later: nat, auth: AuthReply)
      returns (r: Result<int, Failure>, sent: seq<seq<Option<string>>>)
      modifies this
      ensures Sending(r, Store(), sent) == SendSpec(old(Store()), headers, enableRetry, creds, first, now, later, auth)
    {
      sent := [headers];
      if first.NoReply? {
        r := Failure(HttpError(None));
        return;
      }
      if IsSuccessStatus(first.status) {
        r := Success(first.status);
        return;
      }
      if !enableRetry || first.status >= 500 {
        r := Failure(HttpError(Some(first.status)));
        return;
      }
      tokens := map[];
      var token, _ := GetToken(creds, now, later, auth);
      if token.Failure? {
        r := Failure(token.error);
        return;
      }
      r := Failure(RequestAlreadySent);
    }

    /**
     * `Send` with the retry it evidently intends: the request is rebuilt
     * with the new token added and sent once more, without retry. `retry`
     * is the reply to that second attempt.
     */
    method SendRebuildingRequest(headers: seq<Option<string>>, enableRetry: bool, creds: Credentials, first: Reply, retry: Reply,
                                 now: nat, later: nat, auth: AuthReply)
      returns (r: Result<int, Failure>, sent: seq<seq<Option<string>>>)
      modifies this
      decreases enableRetry
      ensures Sending(r, Store(), sent) == FreshRetrySpec(old(Store()), headers, enableRetry, creds, first, retry, now, later, auth)
    {
      sent := [headers];
      if first.NoReply? {
        r := Failure(HttpError(None));
        return;
      }
      if IsSuccessStatus(first.status) {
        r := Success(first.status);
        return;
      }
      if !enableRetry || first.status >= 500 {
        r := Failure(HttpError(Some(first.status)));
        return;
      }
      tokens := map[];
      var token, _ := GetToken(creds, now, later, auth);
      if token.Failure? {
        r := Failure(token.error);
        return;
      }
      var again;
      r, again := SendRebuildingRequest(headers + [token.value], false, creds, retry, retry, now, later, auth);
      sent := sent + again;
    }
  }
}
