/** The token-guarded request routines of Action.c (POST_Request and
    GET_Request) and GET.c (GET_Request): check `time(NULL) <
    atol({expires_in_epoch})`; when that fails, run GetPingToken and check
    again; when it passes, send exactly one request, store its status in
    `HttpRetCode` and close the "api_name" transaction by that status. */
module Requests {
  import opened LrRuntime
  import opened CDecimal
  import opened PingToken

  const ApiTx := "api_name"

  /** The end status of the request transaction: LR_PASS for 200 and for
      204, LR_FAIL for every other status. */
  function Classify(code: int): (r: LrStatus)
    ensures r == LrPass <==> code == 200 || code == 204
    ensures r == LrFail <==> code != 200 && code != 204
  {
    if code == 200 then LrPass
    else if code == 204 then LrPass
    else LrFail
  }

  /** The request built from the current parameters; only POST carries a body. */
  function BuildRequest(params: Params, verb: Verb): (r: HttpRequest) {
    HttpRequest(
      verb,
      EvalParam(params, "host_name") + EvalParam(params, "endpoint"),
      EvalParam(params, "access_token"),
      EvalParam(params, "api_key"),
      if verb == Post then Some(EvalParam(params, "json_body")) else None)
  }

  /** The guard: the next clock reading lies before the stored expiry. */
  predicate GuardHolds(env: Env, s: State) {
    env.clock(s.clockReads) < ParseDecimal(EvalParam(s.params, "expires_in_epoch"))
  }

  /** The guard has consumed one clock reading. */
  function ReadClock(s: State): (r: State) {
    s.(clockReads := s.clockReads + 1)
  }

  /** What the routine writes once the guard has passed: the "api_name"
      transaction opened, the request sent, the return code written, then
      for 200 a pass message and LR_PASS, for 204 LR_PASS alone, and for any
      other status a fail message and LR_FAIL. */
  function RequestEvents(params: Params, verb: Verb, code: int): (r: seq<Event>) {
    var inputs := (EvalParam(params, "param_name_1"), EvalParam(params, "param_name_2"));
    [TxStart(ApiTx), Sent(BuildRequest(params, verb)), Output(ReturnCode(code))]
    + (if code == 200 then [Output(RequestPassed(inputs.0, inputs.1)), TxEnd(ApiTx, LrPass)]
       else if code == 204 then [TxEnd(ApiTx, LrPass)]
       else [Output(RequestFailed(inputs.0, inputs.1)), TxEnd(ApiTx, LrFail)])
  }

  /** One issued request opens exactly one transaction, sends exactly one
      request, and ends the transaction exactly once, last, with the status
      that classifies its return code. */
  lemma RequestEventsShape(params: Params, verb: Verb, code: int)
    ensures var es := RequestEvents(params, verb, code);
      |es| >= 4 && es[0] == TxStart(ApiTx) && es[1] == Sent(BuildRequest(params, verb))
      && es[|es| - 1] == TxEnd(ApiTx, Classify(code))
      && (forall i :: 2 <= i < |es| ==> !es[i].TxStart? && !es[i].Sent?)
      && (forall i :: 0 <= i < |es| - 1 ==> !es[i].TxEnd?)
  {
  }

  /** The branch taken when the guard passes: one request, its status in
      `HttpRetCode`, the transaction ended by that status. */
  function Issue(env: Env, s: State, verb: Verb): (r: State) {
    var code := env.status(s.requests);
    s.(httpRetCode := code,
       requests := s.requests + 1,
       log := s.log + RequestEvents(s.params, verb, code))
  }

  /** The retry loop either returns (0 in the source) or is still looping
      when the fuel, the number of guard checks allowed, runs out. */
  datatype Progress = Returned(final: State) | OutOfFuel(final: State)

  /** The guard-and-refresh part of the retry loop of POST_Request and
      GET_Request, under a guard `passes` and a recovery step `refresh`,
      allowed at most `fuel` guard checks: while the guard fails, the
      recovery step runs and the guard is checked again. The result is the
      state in which the guard passed, with the checks still left, or the
      state in which the checks ran out, with 0. */
  function Settle(passes: State -> bool, refresh: State -> State, s: State, fuel: nat): (r: (State, nat))
    ensures r.1 <= fuel
    ensures r.1 > 0 ==> passes(r.0)
    ensures r.1 == 0 ==> fuel == 0 || !passes(s)
    decreases fuel
  {
    if fuel == 0 then (s, 0)
    else if passes(s) then (s, fuel)
    else Settle(passes, refresh, refresh(ReadClock(s)), fuel - 1)
  }

  /** The whole retry loop: once the guard has passed (its clock reading
      consumed), the request is issued; when the checks run out first, the
      routine is still looping. */
  function Loop(env: Env, passes: State -> bool, refresh: State -> State, s: State, verb: Verb, fuel: nat): (r: Progress) {
    var (g, left) := Settle(passes, refresh, s, fuel);
    if left == 0 then OutOfFuel(g) else Returned(Issue(env, ReadClock(g), verb))
  }

  /** The effect of one call of POST_Request or GET_Request: the loop under
      the token-expiry guard, recovering by GetPingToken. */
  function Run(env: Env, s: State, verb: Verb, fuel: nat): (r: Progress) {
    Loop(env, Guard(env), Recover(env), s, verb, fuel)
  }

  function Guard(env: Env): (r: State -> bool) {
    t => GuardHolds(env, t)
  }

  function Recover(env: Env): (r: State -> State) {
    t => Refresh(env, t)
  }

  /** What a recovery step does outside the parameter store: one PingAuth
      transaction, one clock reading, one exchange, nothing else. */
  ghost predicate RefreshShaped(refresh: State -> State) {
    forall x :: refresh(x).log == x.log + PingAuthEvents
      && refresh(x).clockReads == x.clockReads + 1
      && refresh(x).exchanges == x.exchanges + 1
      && refresh(x).requests == x.requests
      && refresh(x).httpRetCode == x.httpRetCode
  }

  lemma GetPingTokenShaped(env: Env)
    ensures RefreshShaped(Recover(env))
  {
    forall x ensures Refresh(env, x).log == x.log + PingAuthEvents {
      RefreshEffects(env, x, "");
    }
  }

  /** The loop settles after `fuel - left` refresh steps: each is one clock
      reading for the failed guard and one PingAuth exchange; nothing else
      changes. */
  lemma {:induction false} SettleEffects(passes: State -> bool, refresh: State -> State, s: State, fuel: nat)
    requires RefreshShaped(refresh)
    decreases fuel
    ensures var (g, left) := Settle(passes, refresh, s, fuel);
      g.exchanges == s.exchanges + (fuel - left)
      && g.clockReads == s.clockReads + 2 * (fuel - left)
      && g.requests == s.requests
      && g.httpRetCode == s.httpRetCode
      && g.log == s.log + Repeat(PingAuthEvents, (fuel - left))
  {
    if fuel > 0 && !passes(s) {
      var s' := refresh(ReadClock(s));
      SettleEffects(passes, refresh, s', fuel - 1);
      var n := fuel - 1 - Settle(passes, refresh, s', fuel - 1).1;
      assert Repeat(PingAuthEvents, n + 1) == PingAuthEvents + Repeat(PingAuthEvents, n);
      assert s.log + Repeat(PingAuthEvents, n + 1) == s'.log + Repeat(PingAuthEvents, n);
    }
  }

  /** A call that returns has issued exactly one request, after n refreshes
      (n below the fuel), from a state in which the guard passed; its
      `HttpRetCode` is the status of that request and its log is n PingAuth
      exchanges followed by the request's events. */
  lemma LoopReturned(env: Env, passes: State -> bool, refresh: State -> State, s: State, verb: Verb, fuel: nat)
    requires RefreshShaped(refresh)
    requires Loop(env, passes, refresh, s, verb, fuel).Returned?
    ensures var t := Loop(env, passes, refresh, s, verb, fuel).final;
      var g := Settle(passes, refresh, s, fuel).0;
      var n := t.exchanges - s.exchanges;
      passes(g) && t == Issue(env, ReadClock(g), verb)
      && s.exchanges <= t.exchanges < s.exchanges + fuel
      && t.clockReads == s.clockReads + 2 * n + 1
      && t.requests == s.requests + 1
      && t.httpRetCode == env.status(s.requests)
      && t.log == s.log + Repeat(PingAuthEvents, n) + RequestEvents(g.params, verb, t.httpRetCode)
  {
    SettleEffects(passes, refresh, s, fuel);
  }

  /** A call that runs out of fuel has done a refresh for every guard check
      and issued no request. */
  lemma LoopOutOfFuel(env: Env, passes: State -> bool, refresh: State -> State, s: State, verb: Verb, fuel: nat)
    requires RefreshShaped(refresh)
    requires Loop(env, passes, refresh, s, verb, fuel).OutOfFuel?
    ensures var t := Loop(env, passes, refresh, s, verb, fuel).final;
      t.exchanges == s.exchanges + fuel
      && t.clockReads == s.clockReads + 2 * fuel
      && t.requests == s.requests
      && t.httpRetCode == s.httpRetCode
      && t.log == s.log + Repeat(PingAuthEvents, fuel)
  {
    SettleEffects(passes, refresh, s, fuel);
  }

  /** One call of POST_Request or GET_Request sends at most one request,
      and sends it only from a state in which the token guard held; when
      the call returns, `HttpRetCode` is that request's status and the
      transaction ends by its classification. */
  lemma RunIssuesAtMostOne(env: Env, s: State, verb: Verb, fuel: nat)
    ensures var p := Run(env, s, verb, fuel);
      var g := Settle(Guard(env), Recover(env), s, fuel).0;
      (p.OutOfFuel? ==> p.final.requests == s.requests && p.final.httpRetCode == s.httpRetCode)
      && (p.Returned? ==>
            GuardHolds(env, g)
            && p.final.requests == s.requests + 1
            && p.final.httpRetCode == env.status(s.requests)
            && p.final.log[|p.final.log| - 1] == TxEnd(ApiTx, Classify(env.status(s.requests))))
  {
    GetPingTokenShaped(env);
    var p := Run(env, s, verb, fuel);
    if p.Returned? {
      LoopReturned(env, Guard(env), Recover(env), s, verb, fuel);
      var g := Settle(Guard(env), Recover(env), s, fuel).0;
      RequestEventsShape(g.params, verb, env.status(s.requests));
    } else {
      LoopOutOfFuel(env, Guard(env), Recover(env), s, verb, fuel);
    }
  }

  /** With a token still valid at the guard, the request is sent at once and
      no token exchange happens. */
  lemma ValidTokenNoRefresh(env: Env, s: State, verb: Verb, fuel: nat)
    requires fuel >= 1 && GuardHolds(env, s)
    ensures Run(env, s, verb, fuel) == Returned(Issue(env, ReadClock(s), verb))
    ensures Run(env, s, verb, fuel).final.exchanges == s.exchanges
  {
  }

  /** With an expired token, GetPingToken runs and the guard is checked
      again on the refreshed state. */
  lemma ExpiredTokenRefreshes(env: Env, s: State, verb: Verb, fuel: nat)
    requires fuel >= 1 && !GuardHolds(env, s)
    ensures Run(env, s, verb, fuel) == Run(env, Refresh(env, ReadClock(s)), verb, fuel - 1)
  {
    assert !Guard(env)(s);
    assert Recover(env)(ReadClock(s)) == Refresh(env, ReadClock(s));
  }

  /** With an expired token, an issuer answer whose expiry lies after the
      next clock reading makes the call do exactly one refresh and then send
      its request. */
  lemma OneRefreshSuffices(env: Env, s: State, verb: Verb, fuel: nat)
    requires fuel >= 2 && !GuardHolds(env, s)
    requires env.expiresIn(s.exchanges).Some?
    requires env.clock(s.clockReads + 2) < ParseDecimal(env.expiresIn(s.exchanges).value) + env.clock(s.clockReads + 1)
    ensures Run(env, s, verb, fuel) == Returned(Issue(env, ReadClock(Refresh(env, ReadClock(s))), verb))
    ensures Run(env, s, verb, fuel).final.exchanges == s.exchanges + 1
  {
    var r := ReadClock(s);
    var s' := Refresh(env, r);
    RefreshStoresExpiry(env, r);
    assert TtlAfter(r.params, env.expiresIn(r.exchanges)) == ParseDecimal(env.expiresIn(s.exchanges).value);
    assert Guard(env)(s');
    assert Run(env, s, verb, fuel) == Loop(env, Guard(env), Recover(env), s', verb, fuel - 1);
  }

  /** The clock never runs backwards. */
  ghost predicate ClockMonotone(env: Env) {
    forall i: nat, j: nat :: i <= j ==> env.clock(i) <= env.clock(j)
  }

  /** `{expires_in}` reads as at most 0 now and after every later exchange:
      it is missing, not numeric, zero or negative. */
  ghost predicate TtlNeverPositive(env: Env, s: State) {
    ParseDecimal(EvalParam(s.params, "expires_in")) <= 0
    && forall k: nat :: s.exchanges <= k && env.expiresIn(k).Some? ==> ParseDecimal(env.expiresIn(k).value) <= 0
  }

  /** A refresh under such an issuer stores an expiry no later than the
      clock reading it used, so the next guard check fails again, and the
      issuer still never grants a positive time-to-live afterwards. */
  lemma NonPositiveTtlRefresh(env: Env, s: State)
    requires ClockMonotone(env)
    requires TtlNeverPositive(env, s)
    ensures !GuardHolds(env, Refresh(env, ReadClock(s)))
    ensures TtlNeverPositive(env, Refresh(env, ReadClock(s)))
  {
    var r := ReadClock(s);
    var s' := Refresh(env, r);
    RefreshStoresExpiry(env, r);
    assert TtlAfter(r.params, env.expiresIn(r.exchanges)) <= 0;
    assert env.clock(r.clockReads) <= env.clock(s'.clockReads);
    assert EvalParam(s'.params, "expires_in") == EvalParam(SaveCaptured(s.params, "expires_in", env.expiresIn(s.exchanges)), "expires_in");
  }

  /** With an expired token and an issuer that never grants a positive
      time-to-live, the guard never passes, whatever the fuel. */
  lemma {:induction false} NonPositiveTtlNeverSettles(env: Env, s: State, fuel: nat)
    requires ClockMonotone(env)
    requires !GuardHolds(env, s)
    requires TtlNeverPositive(env, s)
    ensures Settle(Guard(env), Recover(env), s, fuel).1 == 0
    decreases fuel
  {
    if fuel > 0 {
      var s' := Refresh(env, ReadClock(s));
      NonPositiveTtlRefresh(env, s);
      NonPositiveTtlNeverSettles(env, s', fuel - 1);
      assert !Guard(env)(s) && Recover(env)(ReadClock(s)) == s';
    }
  }

  /** Hence the call is still looping when any fuel runs out: it has done
      one PingAuth exchange per guard check and sent no request. */
  lemma NonPositiveTtlNeverReturns(env: Env, s: State, verb: Verb, fuel: nat)
    requires ClockMonotone(env)
    requires !GuardHolds(env, s)
    requires TtlNeverPositive(env, s)
    ensures Run(env, s, verb, fuel).OutOfFuel?
    ensures var t := Run(env, s, verb, fuel).final;
      t.requests == s.requests && t.exchanges == s.exchanges + fuel
      && t.log == s.log + Repeat(PingAuthEvents, fuel)
  {
    NonPositiveTtlNeverSettles(env, s, fuel);
    GetPingTokenShaped(env);
    LoopOutOfFuel(env, Guard(env), Recover(env), s, verb, fuel);
  }
}
