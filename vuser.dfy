/** The script as one virtual user: its parameter store, the global
    `HttpRetCode` and the event log are fields that the routines of
    Action.c, GET.c and GetPingToken.c update in place. Each method is proved
    against the value-level function that specifies it. */
module Script {
  import opened LrRuntime
  import opened CDecimal
  import opened PingToken
  import opened Requests
  import opened Dispatch

  class Vuser {
    /** The answers of the world this virtual user meets. */
    const env: Env
    var params: Params
    var httpRetCode: int
    var clockReads: nat
    var exchanges: nat
    var requests: nat
    var log: seq<Event>

    ghost function Snapshot(): State
      reads this
    {
      State(params, httpRetCode, clockReads, exchanges, requests, log)
    }

    /** A virtual user that starts with the given parameters (from the
        script's parameter files) and has not talked to anyone yet. */
    constructor (env: Env, params: Params)
      ensures this.env == env
      ensures Snapshot() == State(params, 0, 0, 0, 0, [])
    {
      this.env := env;
      this.params := params;
      httpRetCode := 0;
      clockReads := 0;
      exchanges := 0;
      requests := 0;
      log := [];
    }

    /** `time(NULL)`: the next reading of the clock. */
    method Time() returns (now: int)
      modifies this
      ensures now == env.clock(old(clockReads))
      ensures Snapshot() == ReadClock(old(Snapshot()))
    {
      now := env.clock(clockReads);
      clockReads := clockReads + 1;
    }

    /** GetPingToken.c: a client-credentials exchange inside the "PingAuth"
        transaction, capturing `expires_in` and `access_token`, then the
        expiry `atoi({expires_in}) + time(NULL)` written with `%d` into
        `{expires_in_epoch}`. It returns 0 whatever the exchange gave. */
    method GetPingToken() returns (r: int)
      modifies this
      ensures r == 0
      ensures Snapshot() == Refresh(env, old(Snapshot()))
    {
      var k := exchanges;
      log := log + [TxStart(PingAuthTx)];
      exchanges := exchanges + 1;
      log := log + [TokenExchange];
      params := SaveCaptured(params, "expires_in", env.expiresIn(k));
      params := SaveCaptured(params, "access_token", env.accessToken(k));
      log := log + [TxEnd(PingAuthTx, LrAuto)];
      var now := Time();
      var expiresIn := ParseDecimal(EvalParam(params, "expires_in")) + now;
      var expiresInChar := FormatDecimal(expiresIn);
      params := params["expires_in_epoch" := expiresInChar];
      r := 0;
    }

    /** The branch taken when the guard passes: the "api_name" transaction
        around one request, `HttpRetCode` set to its status and written out,
        and the transaction ended LR_PASS for 200 and 204 and LR_FAIL otherwise. */
    method IssueRequest(verb: Verb)
      modifies this
      ensures Snapshot() == Issue(env, old(Snapshot()), verb)
    {
      var request := BuildRequest(params, verb);
      log := log + [TxStart(ApiTx)];
      log := log + [Sent(request)];
      httpRetCode := env.status(requests);
      requests := requests + 1;
      log := log + [Output(ReturnCode(httpRetCode))];
      if httpRetCode == 200 {
        log := log + [Output(RequestPassed(EvalParam(params, "param_name_1"), EvalParam(params, "param_name_2")))];
        log := log + [TxEnd(ApiTx, LrPass)];
      } else if httpRetCode == 204 {
        log := log + [TxEnd(ApiTx, LrPass)];
      } else {
        log := log + [Output(RequestFailed(EvalParam(params, "param_name_1"), EvalParam(params, "param_name_2")))];
        log := log + [TxEnd(ApiTx, LrFail)];
      }
    }

    /** The body shared by POST_Request and GET_Request: the `goto` loop
        becomes a `while` loop allowed at most `fuel` guard checks. The
        result is Some(0) when the routine returns and None when it is
        still looping as the fuel runs out. */
    method GuardedRequest(verb: Verb, fuel: nat) returns (r: Option<int>)
      modifies this
      ensures Snapshot() == Run(env, old(Snapshot()), verb, fuel).final
      ensures r == (if Run(env, old(Snapshot()), verb, fuel).Returned? then Some(0) else None)
    {
      var f := fuel;
      while f > 0
        invariant Run(env, old(Snapshot()), verb, fuel) == Run(env, Snapshot(), verb, f)
        decreases f
      {
        ghost var before := Snapshot();
        var now := Time();
        if now < ParseDecimal(EvalParam(params, "expires_in_epoch")) {
          IssueRequest(verb);
          ValidTokenNoRefresh(env, before, verb, f);
          return Some(0);
        }
        var _ := GetPingToken();
        ExpiredTokenRefreshes(env, before, verb, f);
        f := f - 1;
      }
      return None;
    }

    /** POST_Request of Action.c. */
    method PostRequest(fuel: nat) returns (r: Option<int>)
      modifies this
      ensures Snapshot() == Run(env, old(Snapshot()), Post, fuel).final
      ensures r == (if Run(env, old(Snapshot()), Post, fuel).Returned? then Some(0) else None)
    {
      r := GuardedRequest(Post, fuel);
    }

    /** GET_Request of Action.c, and its copy in GET.c. */
    method GetRequest(fuel: nat) returns (r: Option<int>)
      modifies this
      ensures Snapshot() == Run(env, old(Snapshot()), Get, fuel).final
      ensures r == (if Run(env, old(Snapshot()), Get, fuel).Returned? then Some(0) else None)
    {
      r := GuardedRequest(Get, fuel);
    }

    /** `Action()`: look `{api_name}` up in the table and run the selected
        handler, or write the "unknown API name" message. It returns 0
        (Some(0)) unless the handler is still looping as the fuel runs out. */
    method Action(fuel: nat) returns (r: Option<int>)
      modifies this
      ensures Snapshot() == ActionSpec(env, old(Snapshot()), fuel).final
      ensures r == (if ActionSpec(env, old(Snapshot()), fuel).Returned? then Some(0) else None)
    {
      var apiName := EvalParam(params, "api_name");
      ApiLookupTableRoutes(apiName);
      var selected, _ := Lookup(ApiLookupTable, apiName);
      if selected == Some(Handler.GetRequest) {
        r := GetRequest(fuel);
      } else if selected == Some(Handler.PostRequest) {
        r := PostRequest(fuel);
      } else {
        log := log + [Output(UnknownApiName(apiName))];
        r := Some(0);
      }
    }
  }
}
