/** The token gateway every content request goes through: one cached bearer token,
    a flag saying a login is in flight, and a queue of callers waiting for that login.
    JavaScript runs one callback at a time and only yields at `await`, so each entry
    point below is one uninterrupted event: a call of `ensureToken`, the login settling,
    or an authentication failure reaching the response interceptor. */
module Api {
  import opened Seqs

  /** The `detail` text of the 403 the backend sends for a request without a token. */
  const NoTokenDetail: string := "Could not validate credentials - no token"

  /** The environment values read at start-up; an unset variable is the empty string. */
  datatype Config = Config(username: string, password: string, baseUrl: string, tenantCode: string)

  /** What the login POST ends with: a body (whose `access_token` may be missing, which
      is written "") or an exception from the HTTP layer. */
  datatype LoginReply = Granted(accessToken: string) | HttpFailure(reason: string)

  datatype LoginError = MissingCredentials | LoginFailed(reason: string)

  /** What `loginAndGetToken` settles with. */
  datatype LoginResult = Token(token: string) | Failed(error: LoginError)

  /** Who is waiting for a token. */
  datatype Caller =
    | Interceptor(request: nat)  // the request interceptor, before sending request `request`
    | Replay(request: nat)       // the queue entry of a failed request; resolving it re-sends the request
    | Background                 // the `ensureToken()` the response interceptor starts and ignores

  datatype Outcome = Resolved(token: string) | Rejected(error: LoginError)

  /** A promise handed to a caller has settled. */
  datatype Settlement = Settlement(caller: Caller, outcome: Outcome)

  /** How a call of `ensureToken` continues. */
  datatype EnsureReply = Immediate(token: string) | Queued | LoginStarted

  /** What the response interceptor does with an error. */
  datatype Decision = Requeued | Propagate

  /** The gateway's variables (`currentAuthToken`, `isRefreshing`, `failedQueue`), the
      `_retry` marks on request configurations, the `ensureToken` call suspended on the
      login, and what an observer sees: logins issued and finished, promises settled,
      requests put back for a replay. The empty token stands for `undefined`. */
  datatype Gateway = Gateway(
    token: string,
    isRefreshing: bool,
    failedQueue: seq<Caller>,
    loginCaller: Option<Caller>,
    retried: set<nat>,
    loginsStarted: nat,
    loginsFinished: nat,
    settled: seq<Settlement>,
    replays: seq<nat>)

  const Initial: Gateway := Gateway("", false, [], None, {}, 0, 0, [], [])

  predicate NoDuplicates(s: seq<nat>) {
    forall i, j :: 0 <= i < j < |s| ==> s[i] != s[j]
  }

  /** The gateway's invariant: a login is in flight exactly when a caller is suspended
      on it, and then no token is cached; the queue is empty whenever no login is in
      flight; at most one login is ever in flight; every request is replayed at most once,
      and only after it was marked as retried. */
  predicate Valid(g: Gateway) {
    && (g.isRefreshing <==> g.loginCaller.Some?)
    && (g.isRefreshing ==> g.token == "")
    && (!g.isRefreshing ==> g.failedQueue == [])
    && g.loginsStarted == g.loginsFinished + (if g.isRefreshing then 1 else 0)
    && (forall i :: 0 <= i < |g.replays| ==> g.replays[i] in g.retried)
    && NoDuplicates(g.replays)
  }

  /** `loginAndGetToken`: a missing username, password, base URL or tenant code fails
      before any request is made; otherwise the POST decides. */
  function LoginAndGetToken(cfg: Config, reply: LoginReply): (r: LoginResult)
    ensures cfg.username == "" || cfg.password == "" || cfg.baseUrl == "" || cfg.tenantCode == ""
            ==> r == Failed(MissingCredentials)
    ensures cfg.username != "" && cfg.password != "" && cfg.baseUrl != "" && cfg.tenantCode != ""
            ==> (r.Token? <==> reply.Granted?)
    ensures r.Token? ==> reply == Granted(r.token)
  {
    if cfg.username == "" || cfg.password == "" || cfg.baseUrl == "" || cfg.tenantCode == "" then
      Failed(MissingCredentials)
    else
      match reply
      case Granted(t) => Token(t)
      case HttpFailure(reason) => Failed(LoginFailed(reason))
  }

  /** The settlement `processQueue` makes for one waiter: a rejection when there is an
      error, a resolution when the token is truthy, and nothing otherwise. */
  function SettleOne(c: Caller, error: Option<LoginError>, token: string): seq<Settlement> {
    if error.Some? then [Settlement(c, Rejected(error.value))]
    else if token != "" then [Settlement(c, Resolved(token))]
    else []
  }

  /** `processQueue(error, token)`: the settlements for the whole queue, in queue order. */
  function Settle(queue: seq<Caller>, error: Option<LoginError>, token: string): seq<Settlement> {
    if queue == [] then []
    else Settle(queue[..|queue| - 1], error, token) + SettleOne(queue[|queue| - 1], error, token)
  }

  /** `ensureToken()` up to its first suspension. */
  function EnsureTokenStep(g: Gateway, c: Caller): (Gateway, EnsureReply) {
    if g.token != "" then
      (g.(settled := g.settled + [Settlement(c, Resolved(g.token))]), Immediate(g.token))
    else if g.isRefreshing then
      (g.(failedQueue := g.failedQueue + [c]), Queued)
    else
      (g.(isRefreshing := true, loginCaller := Some(c), loginsStarted := g.loginsStarted + 1),
       LoginStarted)
  }

  /** The rest of `ensureToken()` once the login settles: cache the token or not, drain
      the queue, clear the flag, then settle the caller that started the login. */
  function CompleteLoginStep(g: Gateway, result: LoginResult): Gateway
    requires g.isRefreshing && g.loginCaller.Some?
  {
    var drained := g.(failedQueue := [], isRefreshing := false, loginCaller := None,
                      loginsFinished := g.loginsFinished + 1);
    match result
    case Token(t) =>
      drained.(token := t,
               settled := g.settled + Settle(g.failedQueue, None, t)
                          + [Settlement(g.loginCaller.value, Resolved(t))])
    case Failed(e) =>
      drained.(settled := g.settled + Settle(g.failedQueue, Some(e), "")
                          + [Settlement(g.loginCaller.value, Rejected(e))])
  }

  /** `shouldRetry` of the response interceptor. */
  function ShouldRetry(status: Option<int>, detail: Option<string>, hasConfig: bool, alreadyRetried: bool): (b: bool)
    ensures b ==> hasConfig && !alreadyRetried
    ensures b ==> status == Some(401) || (status == Some(403) && detail == Some(NoTokenDetail))
    ensures hasConfig && !alreadyRetried && status == Some(401) ==> b
    ensures hasConfig && !alreadyRetried && status == Some(403) && detail == Some(NoTokenDetail) ==> b
  {
    (status == Some(401) || (status == Some(403) && detail == Some(NoTokenDetail)))
    && hasConfig && !alreadyRetried
  }

  /** The response interceptor's error branch for request `request` (absent when the
      error carries no configuration): on an authentication failure not yet retried, mark
      the request, forget the token, queue a replay and start `ensureToken()`. */
  function AuthFailureStep(g: Gateway, request: Option<nat>, status: Option<int>, detail: Option<string>): (Gateway, Decision) {
    if ShouldRetry(status, detail, request.Some?, request.Some? && request.value in g.retried) then
      var id := request.value;
      var marked := g.(retried := g.retried + {id}, token := "",
                       failedQueue := g.failedQueue + [Replay(id)], replays := g.replays + [id]);
      (EnsureTokenStep(marked, Background).0, Requeued)
    else
      (g, Propagate)
  }

  /** What can happen to the gateway. A login can only settle while one is in flight. */
  datatype Event =
    | CallEnsureToken(caller: Caller)
    | LoginSettles(reply: LoginReply)
    | ResponseError(request: Option<nat>, status: Option<int>, detail: Option<string>)

  function Step(cfg: Config, g: Gateway, e: Event): Gateway {
    match e
    case CallEnsureToken(c) => EnsureTokenStep(g, c).0
    case LoginSettles(reply) =>
      if g.isRefreshing && g.loginCaller.Some? then CompleteLoginStep(g, LoginAndGetToken(cfg, reply)) else g
    case ResponseError(request, status, detail) => AuthFailureStep(g, request, status, detail).0
  }

  function Run(cfg: Config, g: Gateway, events: seq<Event>): Gateway
    decreases |events|
  {
    if events == [] then g else Run(cfg, Step(cfg, g, events[0]), events[1..])
  }

  // ---------------------------------------------------------------------------
  // Properties of the steps

  /** With a token cached, `ensureToken` hands it out and starts no login. */
  lemma CachedTokenReused(g: Gateway, c: Caller)
    requires g.token != ""
    ensures EnsureTokenStep(g, c).1 == Immediate(g.token)
    ensures EnsureTokenStep(g, c).0.loginsStarted == g.loginsStarted
    ensures EnsureTokenStep(g, c).0 == g.(settled := g.settled + [Settlement(c, Resolved(g.token))])
  {
  }

  /** While a login is in flight a caller joins the queue and no second login starts. */
  lemma QueuedWhileRefreshing(g: Gateway, c: Caller)
    requires Valid(g) && g.isRefreshing
    ensures EnsureTokenStep(g, c).1 == Queued
    ensures EnsureTokenStep(g, c).0 == g.(failedQueue := g.failedQueue + [c])
  {
  }

  /** Every step keeps the invariant. */
  lemma StepValid(cfg: Config, g: Gateway, e: Event)
    requires Valid(g)
    ensures Valid(Step(cfg, g, e))
  {
    match e
    case CallEnsureToken(c) =>
    case LoginSettles(reply) =>
    case ResponseError(request, status, detail) =>
      if ShouldRetry(status, detail, request.Some?, request.Some? && request.value in g.retried) {
        var id := request.value;
        var r := g.replays + [id];
        assert id !in g.replays;
        assert forall i :: 0 <= i < |g.replays| ==> r[i] == g.replays[i];
      }
  }

  /** Whatever happens, the invariant holds: in particular at most one login is ever in
      flight and no request is replayed twice. */
  lemma {:induction false} RunValid(cfg: Config, g: Gateway, events: seq<Event>)
    requires Valid(g)
    ensures Valid(Run(cfg, g, events))
    decreases |events|
  {
    if events != [] {
      StepValid(cfg, g, events[0]);
      RunValid(cfg, Step(cfg, g, events[0]), events[1..]);
    }
  }

  /** From start-up, any sequence of events leaves at most one login in flight and at
      most one replay per request. */
  lemma SingleLoginAndSingleReplay(cfg: Config, events: seq<Event>)
    ensures Run(cfg, Initial, events).loginsStarted <= Run(cfg, Initial, events).loginsFinished + 1
    ensures NoDuplicates(Run(cfg, Initial, events).replays)
  {
    RunValid(cfg, Initial, events);
  }

  /** `ensureToken` called by each of `callers` in turn, with no login settling between. */
  function EnsureAll(g: Gateway, callers: seq<Caller>): Gateway
    decreases |callers|
  {
    if callers == [] then g else EnsureAll(EnsureTokenStep(g, callers[0]).0, callers[1..])
  }

  lemma {:induction false} EnsureAllWhileRefreshing(g: Gateway, callers: seq<Caller>)
    requires Valid(g) && g.isRefreshing
    ensures EnsureAll(g, callers) == g.(failedQueue := g.failedQueue + callers)
    decreases |callers|
  {
    if callers == [] {
      assert g.failedQueue + callers == g.failedQueue;
    } else {
      var g1 := EnsureTokenStep(g, callers[0]).0;
      EnsureAllWhileRefreshing(g1, callers[1..]);
      assert g.failedQueue + [callers[0]] + callers[1..] == g.failedQueue + callers;
    }
  }

  /** Callers arriving while no token is cached and no login is in flight: the first
      starts the only login, the others wait in the queue in arrival order. */
  lemma ConcurrentCallersShareOneLogin(g: Gateway, callers: seq<Caller>)
    requires Valid(g) && g.token == "" && !g.isRefreshing && |callers| >= 1
    ensures EnsureAll(g, callers).loginsStarted == g.loginsStarted + 1
    ensures EnsureAll(g, callers).loginCaller == Some(callers[0])
    ensures EnsureAll(g, callers).failedQueue == callers[1..]
  {
    var g1 := EnsureTokenStep(g, callers[0]).0;
    EnsureAllWhileRefreshing(g1, callers[1..]);
  }

  lemma {:induction false} SettleLength(queue: seq<Caller>, error: Option<LoginError>, token: string)
    requires error.Some? || token != ""
    ensures |Settle(queue, error, token)| == |queue|
    decreases |queue|
  {
    if queue != [] {
      SettleLength(queue[..|queue| - 1], error, token);
    }
  }

  /** `processQueue(null, token)` with a truthy token resolves every waiter with that
      token, in queue order. */
  lemma {:induction false} SettleResolvesEach(queue: seq<Caller>, token: string, i: nat)
    requires token != "" && i < |queue|
    ensures |Settle(queue, None, token)| == |queue|
    ensures Settle(queue, None, token)[i] == Settlement(queue[i], Resolved(token))
    decreases |queue|
  {
    SettleLength(queue, None, token);
    var front := queue[..|queue| - 1];
    SettleLength(front, None, token);
    if i < |queue| - 1 {
      SettleResolvesEach(front, token, i);
    }
  }

  /** `processQueue(error)` rejects every waiter with that error, in queue order. */
  lemma {:induction false} SettleRejectsEach(queue: seq<Caller>, error: LoginError, i: nat)
    requires i < |queue|
    ensures |Settle(queue, Some(error), "")| == |queue|
    ensures Settle(queue, Some(error), "")[i] == Settlement(queue[i], Rejected(error))
    decreases |queue|
  {
    SettleLength(queue, Some(error), "");
    var front := queue[..|queue| - 1];
    SettleLength(front, Some(error), "");
    if i < |queue| - 1 {
      SettleRejectsEach(front, error, i);
    }
  }

  /** A login reply without `access_token` settles none of the queued callers: they are
      dropped from the queue and never hear back. */
  lemma {:induction false} EmptyTokenSettlesNobody(queue: seq<Caller>)
    ensures Settle(queue, None, "") == []
    decreases |queue|
  {
    if queue != [] {
      EmptyTokenSettlesNobody(queue[..|queue| - 1]);
    }
  }

  /** A successful login caches the token, resolves every queued caller and then the
      caller that started it with that same token, and leaves the gateway idle. */
  lemma LoginSuccessResolvesAll(g: Gateway, t: string)
    requires Valid(g) && g.isRefreshing && t != ""
    ensures var g' := CompleteLoginStep(g, Token(t));
      && g'.token == t && !g'.isRefreshing && g'.failedQueue == [] && Valid(g')
      && |g'.settled| == |g.settled| + |g.failedQueue| + 1
      && (forall i :: 0 <= i < |g.failedQueue| ==>
            g'.settled[|g.settled| + i] == Settlement(g.failedQueue[i], Resolved(t)))
      && g'.settled[|g'.settled| - 1] == Settlement(g.loginCaller.value, Resolved(t))
  {
    SettleLength(g.failedQueue, None, t);
    forall i | 0 <= i < |g.failedQueue|
      ensures CompleteLoginStep(g, Token(t)).settled[|g.settled| + i] == Settlement(g.failedQueue[i], Resolved(t))
    {
      SettleResolvesEach(g.failedQueue, t, i);
    }
  }

  /** A failed login rejects every queued caller and the caller that started it with the
      login error, leaves no token and the gateway idle, so that the next call starts
      exactly one new login. */
  lemma LoginFailureRejectsAll(g: Gateway, e: LoginError, c: Caller)
    requires Valid(g) && g.isRefreshing
    ensures var g' := CompleteLoginStep(g, Failed(e));
      && g'.token == "" && !g'.isRefreshing && g'.failedQueue == [] && Valid(g')
      && |g'.settled| == |g.settled| + |g.failedQueue| + 1
      && (forall i :: 0 <= i < |g.failedQueue| ==>
            g'.settled[|g.settled| + i] == Settlement(g.failedQueue[i], Rejected(e)))
      && g'.settled[|g'.settled| - 1] == Settlement(g.loginCaller.value, Rejected(e))
      && EnsureTokenStep(g', c).1 == LoginStarted
      && EnsureTokenStep(g', c).0.loginsStarted == g'.loginsStarted + 1
  {
    SettleLength(g.failedQueue, Some(e), "");
    forall i | 0 <= i < |g.failedQueue|
      ensures CompleteLoginStep(g, Failed(e)).settled[|g.settled| + i] == Settlement(g.failedQueue[i], Rejected(e))
    {
      SettleRejectsEach(g.failedQueue, e, i);
    }
  }

  /** A 403 whose detail is not exactly the no-token text is passed on untouched. */
  lemma Other403Propagates(g: Gateway, request: Option<nat>, detail: Option<string>)
    requires detail != Some(NoTokenDetail)
    ensures AuthFailureStep(g, request, Some(403), detail) == (g, Propagate)
  {
  }

  /** A request already retried once is passed on untouched whatever its status. */
  lemma SecondFailurePropagates(g: Gateway, id: nat, status: Option<int>, detail: Option<string>)
    requires id in g.retried
    ensures AuthFailureStep(g, Some(id), status, detail) == (g, Propagate)
  {
  }

  /** A first 401 on a request made with a cached token marks the request, drops the
      token and starts exactly one login, with the replay waiting on it. */
  lemma FirstAuthFailure(g: Gateway, id: nat)
    requires Valid(g) && g.token != "" && id !in g.retried
    ensures var (g1, d) := AuthFailureStep(g, Some(id), Some(401), None);
      && d == Requeued && g1.token == "" && id in g1.retried && g1.isRefreshing
      && g1.loginsStarted == g.loginsStarted + 1 && g1.settled == g.settled
      && g1.failedQueue == [Replay(id)] && g1.loginCaller == Some(Background)
  {
  }

  /** When the login started for a replay succeeds, the replay and then the login's own
      caller are resolved with the new token, and the marked request is not retried again. */
  lemma ReplayResolved(g1: Gateway, id: nat, t: string, status: Option<int>, detail: Option<string>)
    requires g1.isRefreshing && g1.loginCaller == Some(Background)
    requires g1.failedQueue == [Replay(id)] && id in g1.retried && t != ""
    ensures var g2 := CompleteLoginStep(g1, Token(t));
      && g2.token == t
      && g2.settled == g1.settled + [Settlement(Replay(id), Resolved(t)), Settlement(Background, Resolved(t))]
      && AuthFailureStep(g2, Some(id), status, detail) == (g2, Propagate)
  {
    assert Settle([Replay(id)], None, t) == [Settlement(Replay(id), Resolved(t))] by {
      assert [Replay(id)][..0] == [];
    }
  }

  /** A first 401 on a request made with a cached token: the request is marked, the token
      dropped, exactly one login starts with the replay waiting on it; when that login
      succeeds the replay is resolved with the new token, and a second authentication
      failure of the same request is passed on. */
  lemma RetryScenario(g: Gateway, id: nat, t: string, status: Option<int>, detail: Option<string>)
    requires Valid(g) && g.token != "" && id !in g.retried && t != ""
    ensures var (g1, d) := AuthFailureStep(g, Some(id), Some(401), None);
      && d == Requeued && g1.token == "" && id in g1.retried
      && g1.loginsStarted == g.loginsStarted + 1
      && g1.failedQueue == [Replay(id)] && g1.loginCaller == Some(Background)
      && var g2 := CompleteLoginStep(g1, Token(t));
         && g2.token == t
         && g2.settled == g.settled + [Settlement(Replay(id), Resolved(t)), Settlement(Background, Resolved(t))]
         && AuthFailureStep(g2, Some(id), status, detail) == (g2, Propagate)
  {
    FirstAuthFailure(g, id);
    var g1 := AuthFailureStep(g, Some(id), Some(401), None).0;
    ReplayResolved(g1, id, t, status, detail);
  }

  // ---------------------------------------------------------------------------
  // The gateway object

  /** The module-level state of the gateway as one object; each method is one event. */
  class TokenGateway {
    const config: Config
    var currentAuthToken: string
    var isRefreshing: bool
    var failedQueue: seq<Caller>
    var loginCaller: Option<Caller>
    var retried: set<nat>
    var loginsStarted: nat
    var loginsFinished: nat
    var settled: seq<Settlement>
    var replays: seq<nat>

    function State(): Gateway
      reads this
    {
      Gateway(currentAuthToken, isRefreshing, failedQueue, loginCaller, retried,
              loginsStarted, loginsFinished, settled, replays)
    }

    constructor (config: Config)
      ensures this.config == config && State() == Initial && Valid(State())
    {
      this.config := config;
      currentAuthToken := "";
      isRefreshing := false;
      failedQueue := [];
      loginCaller := None;
      retried := {};
      loginsStarted := 0;
      loginsFinished := 0;
      settled := [];
      replays := [];
    }

    /** `ensureToken()` up to the point where it returns or suspends. */
    method EnsureToken(c: Caller) returns (reply: EnsureReply)
      modifies this
      ensures (State(), reply) == EnsureTokenStep(old(State()), c)
      ensures old(Valid(State())) ==> Valid(State())
    {
      if currentAuthToken != "" {
        settled := settled + [Settlement(c, Resolved(currentAuthToken))];
        return Immediate(currentAuthToken);
      }
      if isRefreshing {
        failedQueue := failedQueue + [c];
        return Queued;
      }
      isRefreshing := true;
      loginCaller := Some(c);
      loginsStarted := loginsStarted + 1;
      reply := LoginStarted;
    }

    /** `processQueue(error, token)`: settle every waiter in order, then empty the queue. */
    method ProcessQueue(error: Option<LoginError>, token: string)
      modifies this
      ensures settled == old(settled) + Settle(old(failedQueue), error, token)
      ensures failedQueue == []
      ensures currentAuthToken == old(currentAuthToken) && isRefreshing == old(isRefreshing)
      ensures loginCaller == old(loginCaller) && retried == old(retried) && replays == old(replays)
      ensures loginsStarted == old(loginsStarted) && loginsFinished == old(loginsFinished)
    {
      var i := 0;
      while i < |failedQueue|
        invariant 0 <= i <= |failedQueue|
        invariant failedQueue == old(failedQueue)
        invariant settled == old(settled) + Settle(failedQueue[..i], error, token)
        invariant currentAuthToken == old(currentAuthToken) && isRefreshing == old(isRefreshing)
        invariant loginCaller == old(loginCaller) && retried == old(retried) && replays == old(replays)
        invariant loginsStarted == old(loginsStarted) && loginsFinished == old(loginsFinished)
      {
        var waiter := failedQueue[i];
        if error.Some? {
          settled := settled + [Settlement(waiter, Rejected(error.value))];
        } else if token != "" {
          settled := settled + [Settlement(waiter, Resolved(token))];
        }
        assert failedQueue[..i + 1][..i] == failedQueue[..i];
        i := i + 1;
      }
      assert failedQueue[..i] == failedQueue;
      failedQueue := [];
    }

    /** The awaited `loginAndGetToken()` settles with `reply`: the rest of `ensureToken()`. */
    method CompleteLogin(reply: LoginReply) returns (result: LoginResult)
      requires Valid(State()) && isRefreshing
      modifies this
      ensures result == LoginAndGetToken(config, reply)
      ensures State() == CompleteLoginStep(old(State()), result)
      ensures Valid(State())
    {
      result := LoginAndGetToken(config, reply);
      var starter := loginCaller.value;
      match result {
        case Token(t) =>
          currentAuthToken := t;
          ProcessQueue(None, t);
          settled := settled + [Settlement(starter, Resolved(t))];
        case Failed(e) =>
          ProcessQueue(Some(e), "");
          settled := settled + [Settlement(starter, Rejected(e))];
      }
      isRefreshing := false;
      loginCaller := None;
      loginsFinished := loginsFinished + 1;
      StepValid(config, old(State()), LoginSettles(reply));
    }

    /** The response interceptor's error handler for request `request`. */
    method OnResponseError(request: Option<nat>, status: Option<int>, detail: Option<string>)
      returns (decision: Decision)
      requires Valid(State())
      modifies this
      ensures (State(), decision) == AuthFailureStep(old(State()), request, status, detail)
      ensures Valid(State())
    {
      var alreadyRetried := request.Some? && request.value in retried;
      if ShouldRetry(status, detail, request.Some?, alreadyRetried) {
        var id := request.value;
        retried := retried + {id};
        currentAuthToken := "";
        failedQueue := failedQueue + [Replay(id)];
        replays := replays + [id];
        var _ := EnsureToken(Background);
        decision := Requeued;
      } else {
        decision := Propagate;
      }
      StepValid(config, old(State()), ResponseError(request, status, detail));
    }
  }
}
