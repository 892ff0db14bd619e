/** GetPingToken.c: one client-credentials exchange with the identity
    provider, then the new absolute expiry stored as decimal text in
    `{expires_in_epoch}`. */
module PingToken {
  import opened LrRuntime
  import opened CDecimal

  const PingAuthTx := "PingAuth"

  /** The token exchange, timed inside its own "PingAuth" transaction that
      ends with LR_AUTO. */
  const PingAuthEvents: seq<Event> := [TxStart(PingAuthTx), TokenExchange, TxEnd(PingAuthTx, LrAuto)]

  /** The state after one call of GetPingToken: the captures of the k-th
      exchange are saved, `time(NULL)` is read once, and
      `{expires_in_epoch}` becomes `%d` of `atoi({expires_in}) + now`. */
  function Refresh(env: Env, s: State): (r: State) {
    var k := s.exchanges;
    var captured := SaveCaptured(SaveCaptured(s.params, "expires_in", env.expiresIn(k)), "access_token", env.accessToken(k));
    var expiresIn := ParseDecimal(EvalParam(captured, "expires_in")) + env.clock(s.clockReads);
    s.(params := captured["expires_in_epoch" := FormatDecimal(expiresIn)],
       clockReads := s.clockReads + 1,
       exchanges := k + 1,
       log := s.log + PingAuthEvents)
  }

  /** The time-to-live `{expires_in}` holds once the k-th exchange has been
      captured into `params`. */
  function TtlAfter(params: Params, captured: Option<string>): (r: int) {
    ParseDecimal(EvalParam(SaveCaptured(params, "expires_in", captured), "expires_in"))
  }

  /** After a refresh at time t, `{expires_in_epoch}` holds canonical decimal
      text that `atol` reads back as the issuer's time-to-live plus t. */
  lemma RefreshStoresExpiry(env: Env, s: State)
    ensures var epoch := EvalParam(Refresh(env, s).params, "expires_in_epoch");
      IsCanonical(epoch)
      && ParseDecimal(epoch) == TtlAfter(s.params, env.expiresIn(s.exchanges)) + env.clock(s.clockReads)
  {
    var k := s.exchanges;
    var captured := SaveCaptured(SaveCaptured(s.params, "expires_in", env.expiresIn(k)), "access_token", env.accessToken(k));
    assert EvalParam(captured, "expires_in") == EvalParam(SaveCaptured(s.params, "expires_in", env.expiresIn(k)), "expires_in");
    var expiresIn := ParseDecimal(EvalParam(captured, "expires_in")) + env.clock(s.clockReads);
    ParseFormat(expiresIn);
    FormatIsCanonical(expiresIn);
  }

  /** Each refresh performs exactly one token exchange inside one "PingAuth"
      transaction, reads the clock once, saves what was captured, and leaves
      `HttpRetCode`, the request count and every other parameter alone; a
      failed capture is not reported, the previous value simply stays. */
  lemma RefreshEffects(env: Env, s: State, name: string)
    ensures var r := Refresh(env, s);
      r.log == s.log + PingAuthEvents
      && r.exchanges == s.exchanges + 1
      && r.clockReads == s.clockReads + 1
      && r.requests == s.requests
      && r.httpRetCode == s.httpRetCode
      && EvalParam(r.params, "access_token")
         == (if env.accessToken(s.exchanges).Some? then env.accessToken(s.exchanges).value
             else EvalParam(s.params, "access_token"))
      && (name != "expires_in" && name != "access_token" && name != "expires_in_epoch"
          ==> EvalParam(r.params, name) == EvalParam(s.params, name))
  {
  }

  /** An issuer answering `expires_in` 3600 at time t makes the stored expiry t + 3600. */
  lemma HourTtlText()
    ensures ParseDecimal("3600") == 3600
  {
    assert Digits(3) == "3";
    assert Digits(36) == "36";
    assert Digits(360) == "360";
    assert Digits(3600) == "3600";
    ParseFormat(3600);
  }

  lemma RefreshWithHourTtl(env: Env, s: State)
    requires env.expiresIn(s.exchanges) == Some("3600")
    ensures ParseDecimal(EvalParam(Refresh(env, s).params, "expires_in_epoch")) == env.clock(s.clockReads) + 3600
  {
    RefreshStoresExpiry(env, s);
    HourTtlText();
    assert TtlAfter(s.params, env.expiresIn(s.exchanges)) == 3600;
  }
}
