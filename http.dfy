/** The `api` client of `plugins/axios` with the two interceptors `setupAxios` installs:
    the request side attaches the bearer token; the response side answers a 401 on a
    config not yet marked `_retry` with a refresh call and one re-issue of the config.
    The server is a script of replies consumed one per request sent. */
module Http {
  import opened Seqs
  import opened Auth

  datatype Verb = Get | Post | Put | Delete

  /** A request body: the `{ token }` object of the auth endpoints, or anything else. */
  datatype Payload = NoPayload | TokenPayload(token: string) | OtherPayload(text: string)

  /** A request config as the interceptors see it; `retry` is the `_retry` flag. */
  datatype Config = Config(
    verb: Verb,
    url: string,
    payload: Payload,
    authorization: Option<string>,
    retry: bool)

  /** A server reply with its status and the string fields of its JSON body, or no reply
      at all (network failure or the 10 s timeout). */
  datatype Reply = Answered(status: int, body: map<string, string>) | NoAnswer

  /** What axios resolves with, and what it rejects with: the config as sent and what
      came back. */
  datatype Response = Response(config: Config, status: int, body: map<string, string>)
  datatype AxiosError = AxiosError(config: Config, reply: Reply)

  datatype Outcome = Resolved(response: Response) | Rejected(error: AxiosError)

  const RefreshTokenUrl: string := "/auth/refresh-token"
  const LogoutUrl: string := "/auth/logout"
  const LoginRoute: string := "/login"

  /** Axios's default `validateStatus`: only 2xx replies resolve. */
  predicate IsSuccess(reply: Reply)
  {
    reply.Answered? && 200 <= reply.status < 300
  }

  predicate IsUnauthorized(reply: Reply)
  {
    reply.Answered? && reply.status == 401
  }

  // ---------------------------------------------------------------------------
  // The bearer header (section 2.1 of RFC 6750)
  // ---------------------------------------------------------------------------

  function BearerOf(token: string): string
  {
    "Bearer " + token
  }

  /** Reads the token back out of an `Authorization` value. */
  function ParseBearer(header: string): (token: Option<string>)
    ensures token.Some? <==> |header| >= 7 && header[..7] == "Bearer "
  {
    if |header| >= 7 && header[..7] == "Bearer " then Some(header[7..]) else None
  }

  lemma BearerRoundTrip(token: string)
    ensures ParseBearer(BearerOf(token)) == Some(token)
  {
    assert BearerOf(token)[..7] == "Bearer ";
    assert BearerOf(token)[7..] == token;
  }

  /** The request interceptor: a truthy access token sets `Authorization`; otherwise
      the config goes out as it came. Nothing else in the config changes. */
  function Attach(config: Config, access: Ref): (sent: Config)
    ensures sent.authorization == if Truthy(access) then Some(BearerOf(access.s)) else config.authorization
    ensures sent.(authorization := config.authorization) == config
  {
    if Truthy(access) then config.(authorization := Some(BearerOf(access.s))) else config
  }

  /** `api.post('/auth/refresh-token', { token })`: a fresh config, so no `_retry`. */
  function RefreshConfig(token: string): Config
  {
    Config(Post, RefreshTokenUrl, TokenPayload(token), None, false)
  }

  function LogoutConfig(token: string): Config
  {
    Config(Post, LogoutUrl, TokenPayload(token), None, false)
  }

  /** `response.data[key]`: a missing field reads as `undefined`. */
  function Field(body: map<string, string>, key: string): Ref
  {
    if key in body then Str(body[key]) else Undefined
  }

  // ---------------------------------------------------------------------------
  // The state machine
  // ---------------------------------------------------------------------------

  /** Everything one request can touch: the shared cookies, the refs of the interceptor's
      own `useAuth()` instance, the requests sent so far, the router pushes so far and
      the replies the server has yet to give. */
  datatype World = World(
    cookies: Jar,
    access: Ref,
    refresh: Ref,
    wire: seq<Config>,
    navigations: seq<string>,
    replies: seq<Reply>)

  function NextReply(replies: seq<Reply>): Reply
  {
    if replies == [] then NoAnswer else replies[0]
  }

  function Later(replies: seq<Reply>): seq<Reply>
  {
    if replies == [] then [] else replies[1..]
  }

  /** `clearTokens()` of the interceptor's instance. */
  function Cleared(w: World): World
  {
    w.(cookies := RemoveTokens(w.cookies), access := Null, refresh := Null)
  }

  /** `setTokens(access, refresh)` of the interceptor's instance. */
  function Stored(w: World, access: Ref, refresh: Ref): World
  {
    w.(cookies := StoreTokens(w.cookies, access, refresh), access := access, refresh := refresh)
  }

  /** Only the session (cookies and refs) is the same in two worlds. */
  predicate SameSession(w: World, w': World)
  {
    w.cookies == w'.cookies && w.access == w'.access && w.refresh == w'.refresh
  }

  /** `api(config)`: the request interceptor, the server, then the response interceptor.
      The refresh call and the re-issue go through the whole pipeline again. */
  function Run(w: World, config: Config): (res: (Outcome, World))
    ensures |res.1.replies| <= |w.replies|
    ensures w.wire < res.1.wire
    ensures w.navigations <= res.1.navigations
    decreases |w.replies|
  {
    var sent := Attach(config, w.access);
    var reply := NextReply(w.replies);
    var w1 := w.(wire := w.wire + [sent], replies := Later(w.replies));
    if IsSuccess(reply) then
      (Resolved(Response(sent, reply.status, reply.body)), w1)
    else if IsUnauthorized(reply) && !sent.retry then
      var marked := sent.(retry := true);
      if Truthy(w1.refresh) then
        var refreshed := Run(w1, RefreshConfig(w1.refresh.s));
        var w2 := refreshed.1;
        if refreshed.0.Resolved? then
          var body := refreshed.0.response.body;
          var access, refresh := Field(body, "accessToken"), Field(body, "refreshToken");
          var w3 := Stored(Cleared(w2), access, refresh);
          // returned without `await`: its failure is not caught below
          Run(w3, marked.(authorization := Some(BearerOf(Text(access)))))
        else
          (Rejected(refreshed.0.error), Cleared(w2).(navigations := w2.navigations + [LoginRoute]))
      else
        // `_retry` was set on the same config object before the rejection
        (Rejected(AxiosError(marked, reply)), w1)
    else
      (Rejected(AxiosError(sent, reply)), w1)
  }

  // ---------------------------------------------------------------------------
  // Properties of one request
  // ---------------------------------------------------------------------------

  /** A 2xx reply passes through: the response carries the config as sent, the session
      and the navigations are untouched and exactly one request went out. */
  lemma SuccessPassesThrough(w: World, config: Config)
    requires IsSuccess(NextReply(w.replies))
    ensures var (o, w') := Run(w, config);
      && o == Resolved(Response(Attach(config, w.access), w.replies[0].status, w.replies[0].body))
      && SameSession(w, w') && w'.navigations == w.navigations
      && w'.wire == w.wire + [Attach(config, w.access)]
  {
  }

  /** A failure other than 401, or a 401 on a config already marked `_retry`, rejects
      with the original error, with no refresh call and no change to the tokens. */
  lemma OtherFailureRejectsOriginal(w: World, config: Config)
    requires !IsSuccess(NextReply(w.replies))
    requires !IsUnauthorized(NextReply(w.replies)) || config.retry
    ensures var (o, w') := Run(w, config);
      && o == Rejected(AxiosError(Attach(config, w.access), NextReply(w.replies)))
      && SameSession(w, w') && w'.navigations == w.navigations
      && w'.wire == w.wire + [Attach(config, w.access)]
  {
  }

  /** A 401 without a refresh token rejects with the original error, whose config is by
      then marked `_retry`; there is no refresh call. */
  lemma UnauthorizedWithoutRefreshToken(w: World, config: Config)
    requires IsUnauthorized(NextReply(w.replies)) && !config.retry && !Truthy(w.refresh)
    ensures var (o, w') := Run(w, config);
      && o == Rejected(AxiosError(Attach(config, w.access).(retry := true), w.replies[0]))
      && SameSession(w, w') && w'.navigations == w.navigations
      && w'.wire == w.wire + [Attach(config, w.access)]
  {
  }

  /** A 401, then a successful refresh: the refresh call posts the refresh token, the
      tokens are cleared and then set to the new pair, and the same config is re-issued
      once, marked `_retry` and carrying the new bearer header (`Bearer undefined` when
      the refresh reply has no access token). Whatever the re-issue gets is the final
      result: a failure of any kind, a 5xx or no answer included, is neither refreshed
      again nor caught, so the new tokens stay and there is no redirect. */
  lemma RefreshThenReissueOnce(w: World, config: Config)
    requires |w.replies| >= 2
    requires IsUnauthorized(w.replies[0]) && !config.retry && Truthy(w.refresh)
    requires IsSuccess(w.replies[1])
    ensures var (o, w') := Run(w, config);
      var body := w.replies[1].body;
      var access, refresh := Field(body, "accessToken"), Field(body, "refreshToken");
      var first := Attach(config, w.access);
      var reissued := first.(retry := true, authorization := Some(BearerOf(Text(access))));
      var third := NextReply(w.replies[2..]);
      && w'.wire == w.wire + [first, Attach(RefreshConfig(w.refresh.s), w.access), reissued]
      && w'.cookies == StoreTokens(RemoveTokens(w.cookies), access, refresh)
      && w'.access == access && w'.refresh == refresh
      && w'.navigations == w.navigations
      && w'.replies == Later(w.replies[2..])
      && o == if IsSuccess(third) then Resolved(Response(reissued, third.status, third.body))
              else Rejected(AxiosError(reissued, third))
  {
    var first := Attach(config, w.access);
    var w1 := w.(wire := w.wire + [first], replies := w.replies[1..]);
    var refreshSent := Attach(RefreshConfig(w.refresh.s), w.access);
    var w2 := w1.(wire := w1.wire + [refreshSent], replies := w.replies[2..]);
    assert Later(w1.replies) == w.replies[2..];
    assert Run(w1, RefreshConfig(w.refresh.s))
      == (Resolved(Response(refreshSent, w.replies[1].status, w.replies[1].body)), w2);
    var body := w.replies[1].body;
    var access, refresh := Field(body, "accessToken"), Field(body, "refreshToken");
    var w3 := Stored(Cleared(w2), access, refresh);
    var reissued := first.(retry := true, authorization := Some(BearerOf(Text(access))));
    assert Attach(reissued, access) == reissued;
  }

  /** A 401, then a refresh call that fails (other than with a 401): the tokens are
      cleared, the router goes to `/login`, and the caller gets the REFRESH error. */
  lemma RefreshFailureRedirects(w: World, config: Config)
    requires |w.replies| >= 1
    requires IsUnauthorized(w.replies[0]) && !config.retry && Truthy(w.refresh)
    requires !IsSuccess(NextReply(w.replies[1..])) && !IsUnauthorized(NextReply(w.replies[1..]))
    ensures var (o, w') := Run(w, config);
      var refreshSent := Attach(RefreshConfig(w.refresh.s), w.access);
      && o == Rejected(AxiosError(refreshSent, NextReply(w.replies[1..])))
      && w'.cookies == RemoveTokens(w.cookies) && w'.access == Null && w'.refresh == Null
      && w'.navigations == w.navigations + [LoginRoute]
      && w'.wire == w.wire + [Attach(config, w.access), refreshSent]
  {
    var first := Attach(config, w.access);
    var w1 := w.(wire := w.wire + [first], replies := w.replies[1..]);
    var refreshSent := Attach(RefreshConfig(w.refresh.s), w.access);
    var w2 := w1.(wire := w1.wire + [refreshSent], replies := Later(w.replies[1..]));
    assert Run(w1, RefreshConfig(w.refresh.s))
      == (Rejected(AxiosError(refreshSent, NextReply(w.replies[1..]))), w2);
  }

  // ---------------------------------------------------------------------------
  // The retry bound is per config, not global
  // ---------------------------------------------------------------------------

  function Repeat<T>(x: T, n: nat): (r: seq<T>)
    ensures |r| == n && forall i :: 0 <= i < n ==> r[i] == x
  {
    if n == 0 then [] else [x] + Repeat(x, n - 1)
  }

  /** Appending one more copy extends the repetition by one. */
  lemma {:induction false} RepeatSnoc<T>(x: T, n: nat)
    ensures Repeat(x, n) + [x] == Repeat(x, n + 1)
  {
    if n > 0 {
      RepeatSnoc(x, n - 1);
      assert Repeat(x, n) + [x] == [x] + (Repeat(x, n - 1) + [x]);
    }
  }

  /** One level of the chain: when the refresh call is rejected, the request is rejected
      with the refresh error, the tokens are cleared and the router goes to `/login`. */
  lemma RefreshRejectedStep(w: World, config: Config)
    requires IsUnauthorized(NextReply(w.replies)) && !config.retry && Truthy(w.refresh)
    requires Run(w.(wire := w.wire + [Attach(config, w.access)], replies := Later(w.replies)),
                 RefreshConfig(w.refresh.s)).0.Rejected?
    ensures var inner := Run(w.(wire := w.wire + [Attach(config, w.access)], replies := Later(w.replies)),
                             RefreshConfig(w.refresh.s));
      Run(w, config) == (Rejected(inner.0.error), Cleared(inner.1).(navigations := inner.1.navigations + [LoginRoute]))
  {
  }

  /** A 401, then a refresh call that resolves, however many nested refreshes it took:
      the tokens from its body replace the cleared ones and the config, marked `_retry`,
      is re-issued once; the outcome of that re-issue is the outcome of the request. */
  lemma RefreshResolvedStep(w: World, config: Config)
    requires IsUnauthorized(NextReply(w.replies)) && !config.retry && Truthy(w.refresh)
    requires Run(w.(wire := w.wire + [Attach(config, w.access)], replies := Later(w.replies)),
                 RefreshConfig(w.refresh.s)).0.Resolved?
    ensures var inner := Run(w.(wire := w.wire + [Attach(config, w.access)], replies := Later(w.replies)),
                             RefreshConfig(w.refresh.s));
      var body := inner.0.response.body;
      var access, refresh := Field(body, "accessToken"), Field(body, "refreshToken");
      var reissued := Attach(config, w.access).(retry := true, authorization := Some(BearerOf(Text(access))));
      && reissued.retry
      && Run(w, config) == Run(Stored(Cleared(inner.1), access, refresh), reissued)
  {
  }

  /** The refresh call carries no `_retry`, so a 401 from the refresh endpoint enters
      the interceptor again and starts another refresh call with the same token. A
      server that answers the next n requests with 401 therefore draws n nested refresh
      calls for ONE request, and as many clears and redirects while they unwind; only
      the end of the replies (here: no answer) stops the chain. */
  lemma {:induction false} RefreshChain(w: World, config: Config, n: nat, body: map<string, string>)
    requires w.replies == Repeat(Answered(401, body), n)
    requires !config.retry && Truthy(w.refresh)
    ensures var (o, w') := Run(w, config);
      var refreshSent := Attach(RefreshConfig(w.refresh.s), w.access);
      && w'.wire == w.wire + [Attach(config, w.access)] + Repeat(refreshSent, n)
      && w'.navigations == w.navigations + Repeat(LoginRoute, n)
      && o == Rejected(AxiosError(if n == 0 then Attach(config, w.access) else refreshSent, NoAnswer))
      && (n > 0 ==> w'.cookies == RemoveTokens(w.cookies) && w'.access == Null && w'.refresh == Null)
      && w'.replies == []
    decreases n
  {
    var first := Attach(config, w.access);
    var refreshSent := Attach(RefreshConfig(w.refresh.s), w.access);
    if n > 0 {
      var w1 := w.(wire := w.wire + [first], replies := Repeat(Answered(401, body), n - 1));
      assert Later(w.replies) == w1.replies;
      RefreshChain(w1, RefreshConfig(w.refresh.s), n - 1, body);
      RefreshRejectedStep(w, config);
      var inner := Run(w1, RefreshConfig(w.refresh.s));
      assert inner.1.wire == w.wire + [first] + Repeat(refreshSent, n) by {
        assert inner.1.wire == (w.wire + [first]) + [refreshSent] + Repeat(refreshSent, n - 1);
        assert [refreshSent] + Repeat(refreshSent, n - 1) == Repeat(refreshSent, n);
      }
      assert inner.1.navigations + [LoginRoute] == w.navigations + Repeat(LoginRoute, n) by {
        RepeatSnoc(LoginRoute, n - 1);
      }
      assert n - 1 > 0 ==> RemoveTokens(inner.1.cookies) == RemoveTokens(w.cookies);
    }
  }


  // ---------------------------------------------------------------------------
  // The client object
  // ---------------------------------------------------------------------------

  /** The `api` instance after `setupAxios()`: `session` is the `useAuth()` instance the
      interceptors captured; `wire` and `navigations` record the requests sent and the
      router pushes; `replies` is what the server will answer. */
  class ApiClient {
    const session: Session
    var wire: seq<Config>
    var navigations: seq<string>
    var replies: seq<Reply>

    constructor (session: Session, replies: seq<Reply>)
      ensures this.session == session && this.replies == replies
      ensures wire == [] && navigations == []
    {
      this.session := session;
      this.replies := replies;
      wire := [];
      navigations := [];
    }

    function State(): World
      reads this, session, session.jar
    {
      World(session.jar.entries, session.accessToken, session.refreshToken, wire, navigations, replies)
    }

    /** The server: the next scripted reply, or none once the script is used up. */
    method Receive() returns (reply: Reply)
      modifies this`replies
      ensures reply == NextReply(old(replies)) && replies == Later(old(replies))
    {
      if replies == [] {
        return NoAnswer;
      }
      reply := replies[0];
      replies := replies[1..];
    }

    /** `api(config)`. */
    method Send(config: Config) returns (outcome: Outcome)
      modifies this, session, session.jar
      ensures (outcome, State()) == Run(old(State()), config)
      decreases |replies|
    {
      var sent := Attach(config, session.accessToken);
      wire := wire + [sent];
      var reply := Receive();
      if IsSuccess(reply) {
        return Resolved(Response(sent, reply.status, reply.body));
      }
      if IsUnauthorized(reply) && !sent.retry {
        var originalRequest := sent.(retry := true);
        if Truthy(session.refreshToken) {
          var refreshed := Send(RefreshConfig(session.refreshToken.s));
          if refreshed.Resolved? {
            var body := refreshed.response.body;
            var access, refresh := Field(body, "accessToken"), Field(body, "refreshToken");
            session.ClearTokens();
            session.SetTokens(access, refresh);
            originalRequest := originalRequest.(authorization := Some(BearerOf(Text(access))));
            outcome := Send(originalRequest);
            return;
          }
          session.ClearTokens();
          navigations := navigations + [LoginRoute];
          return Rejected(refreshed.error);
        }
        return Rejected(AxiosError(originalRequest, reply));
      }
      return Rejected(AxiosError(sent, reply));
    }

    /** `logout()` called on any `useAuth()` instance over the same cookies: the logout
        POST, only with a truthy refresh ref, goes through `api`; whatever it gives is
        swallowed, and the caller's tokens are cleared in every case. */
    method Logout(caller: Session)
      requires caller.jar == session.jar
      modifies this, session, session.jar, caller
      ensures caller.accessToken == Null && caller.refreshToken == Null
      ensures AccessTokenKey !in session.jar.entries && RefreshTokenKey !in session.jar.entries
      ensures Truthy(old(caller.refreshToken)) ==>
        var after := Run(old(State()), LogoutConfig(old(caller.refreshToken).s)).1;
        && session.jar.entries == RemoveTokens(after.cookies)
        && wire == after.wire && navigations == after.navigations && replies == after.replies
      ensures !Truthy(old(caller.refreshToken)) ==>
        && session.jar.entries == RemoveTokens(old(session.jar.entries))
        && wire == old(wire) && navigations == old(navigations) && replies == old(replies)
      // another instance's logout leaves the interceptor's own refs as the request left
      // them, so it keeps attaching the old bearer until its next reconcile
      ensures caller != session && Truthy(old(caller.refreshToken)) ==>
        var after := Run(old(State()), LogoutConfig(old(caller.refreshToken).s)).1;
        session.accessToken == after.access && session.refreshToken == after.refresh
      ensures caller != session && !Truthy(old(caller.refreshToken)) ==>
        session.accessToken == old(session.accessToken) && session.refreshToken == old(session.refreshToken)
    {
      if Truthy(caller.refreshToken) {
        var swallowed := Send(LogoutConfig(caller.refreshToken.s));
      }
      caller.ClearTokens();
    }
  }
}
