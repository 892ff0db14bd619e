# lr-api-template: token-guarded API requests, modelled in Dafny

The script is a LoadRunner virtual user. It calls one REST API and
authenticates with an OAuth2 client-credentials token. `Action()` reads the
`{api_name}` parameter and looks it up in a table of request routines that
ends with a NULL sentinel. It runs the first routine whose name matches.
Each routine (`POST_Request`, `GET_Request`) first checks
`time(NULL) < atol({expires_in_epoch})`. If the check fails, it calls
`GetPingToken` and goes back to the check. If it passes, the routine sends
one request, stores the status in the global `HttpRetCode`, and ends the
"api_name" transaction with LR_PASS for 200 or 204 and LR_FAIL for any
other status. `GetPingToken` does one token exchange inside a "PingAuth"
transaction. It then writes `atoi({expires_in}) + time(NULL)`, printed with
`%d`, into `{expires_in_epoch}`.

The model has one module per concern:

- `LrRuntime` (runtime.dfy) holds the part of the LoadRunner runtime the
  logic relies on, as values. That is the parameter store that
  `lr_eval_string` reads, and the log of transactions, requests, token
  exchanges and output messages. It also holds `Env`, the answers of the
  outside world, which the caller supplies: the k-th clock reading, the
  k-th exchange's captured `expires_in` and `access_token`, and the k-th
  request's HTTP status.
- `CDecimal` (cdecimal.dfy) models `atoi`/`atol` (C11 section 7.22.1.2,
  by way of `strtol`, section 7.22.1.4) and `%d` (C11 section 7.21.6.1).
  It proves the round trip in both directions.
- `PingToken` (ping_token.dfy) models `GetPingToken` as a function of the
  state.
- `Requests` (requests.dfy) models the guard/refresh loop and the request
  branch that POST_Request and GET_Request share.
- `Dispatch` (dispatch.dfy) models the lookup table, the search loop and
  `Action()`.
- `Script` (vuser.dfy) models the virtual user as a class. Its fields are
  the state the routines update in place. Each method is proved equal to
  the function that specifies it.

The `goto` loop need not terminate. It is modelled with `fuel`, a bound on
the number of guard checks. A call either returns or is still looping when
the fuel runs out.

Three behaviours of the code shape the model:

- The script has no error handling of its own. `GetPingToken` always
  returns 0. The model assumes that every LoadRunner step carries on after
  a failure, as it does with "continue on error" enabled, so a capture that
  is not found leaves the old parameter value in place (see "## Left out").
- An unknown operation name only writes a message, and `Action()` still
  returns 0.
- The refresh loop has no retry bound. An issuer that grants no positive
  time-to-live keeps the loop spinning forever (`NonPositiveTtlNeverReturns`).

## Model

| member | source | states |
|---|---|---|
| `CDecimal.ParseFormat` | GetPingToken.c:25-27 | The text `%d` writes for any value is read back by `atol` as that same value. |
| `CDecimal.FormatParse` | Action.c:59 | Every canonical decimal numeral is exactly what `%d` writes for the value `atol` reads from it (the other direction of the round trip). |
| `CDecimal.FormatIsCanonical` | GetPingToken.c:25 | `%d` writes "0", or digits without a leading zero, optionally after a minus sign. |
| `CDecimal.ParseWithoutDigits` | GetPingToken.c:24 | Text with no digit where the number starts (after at most one sign), such as a value captured with its quotes, an empty capture or the unresolved `{expires_in}` placeholder, reads as 0. |
| `CDecimal.QuotedTtlReadsZero` | GetPingToken.c:7 | A time-to-live sent as a JSON string is captured with its opening quote, and `atoi` reads it as 0. |
| `CDecimal.DigitsValueOfDigits` | GetPingToken.c:25 | The digits `%d` prints for a natural number have that number as their value. |
| `CDecimal.DigitsOfValue` | Action.c:59 | A numeral with no leading zero is re-printed unchanged from its value. |
| `PingToken.RefreshStoresExpiry` | GetPingToken.c:24-27 | After a refresh at clock reading t, `{expires_in_epoch}` holds canonical decimal text that `atol` reads as `atoi({expires_in}) + t`, where `{expires_in}` is the new capture or else the old value. |
| `PingToken.RefreshEffects` | GetPingToken.c:1-32 | A refresh adds exactly one token exchange inside one "PingAuth" transaction that ends LR_AUTO, and reads the clock once. `access_token` is saved when captured and otherwise kept. `HttpRetCode`, the request count and all other parameters are unchanged, so no failure reaches the caller. |
| `PingToken.RefreshWithHourTtl` | GetPingToken.c:24 | If the issuer answers `expires_in` "3600" at clock reading t, the stored expiry reads back as t + 3600. |
| `Requests.Classify` | Action.c:82-91 | The transaction ends LR_PASS if and only if the status is 200 or 204, and LR_FAIL if and only if it is neither. |
| `Requests.RequestEventsShape` | Action.c:66-91 | Once the guard passes, the routine opens one "api_name" transaction, sends one request, writes nothing else that opens or sends, and ends the transaction exactly once, as its last event, with the status's classification. |
| `Requests.Settle` | Action.c:57-96 | When the guard-and-refresh loop stops with checks left, the guard holds in the state it stops in. When it stops with none left, the guard failed on entry or no checks were allowed. It never reports more checks left than it was given. |
| `Requests.SettleEffects` | Action.c:93-96 | Each failed guard check costs two clock readings (the check's own and the one inside GetPingToken) and one PingAuth exchange before the next check. Nothing else changes before the guard passes: no request is sent and `HttpRetCode` is untouched. |
| `Requests.GetPingTokenShaped` | GetPingToken.c:6-27 | The refresh step used by the loop consumes one clock reading and one exchange, appends the PingAuth events, and changes neither the request count nor `HttpRetCode`. |
| `Requests.LoopReturned` | Action.c:57-99 | A call that returns has issued exactly one request, from a state in which the guard held, after n refreshes (n smaller than the fuel). `HttpRetCode` is that request's status. The log is n PingAuth exchanges followed by the request's events. |
| `Requests.LoopOutOfFuel` | Action.c:93-96 | A call that runs out of fuel has refreshed once per guard check and issued no request. |
| `Requests.RunIssuesAtMostOne` | Action.c:102-143 | One call of a request routine sends at most one request, and only after the token guard held. When it returns, `HttpRetCode` is that request's status and the last event ends the transaction with the status's classification. |
| `Requests.ValidTokenNoRefresh` | Action.c:59 | If the token is still valid at the first check, the request is issued at once and no token exchange happens. |
| `Requests.ExpiredTokenRefreshes` | Action.c:93-96 | If the token has expired, GetPingToken runs and control returns to the guard, which reads the clock again on the refreshed state. |
| `Requests.OneRefreshSuffices` | GET.c:36-39 | With an expired token, if the issuer's `expires_in` puts the new expiry after the next clock reading, the call does exactly one refresh and then sends its request. |
| `Requests.NonPositiveTtlRefresh` | GetPingToken.c:24 | If `{expires_in}` reads as at most 0 and the clock is monotone, a refresh stores an expiry no later than the clock, so the next guard check fails again. |
| `Requests.NonPositiveTtlNeverSettles` | Action.c:93-96 | If the token has expired and the issuer never grants a positive time-to-live, the guard never passes, for any fuel. |
| `Requests.NonPositiveTtlNeverReturns` | GET.c:3-39 | In that case the call is still looping whenever the fuel runs out: one exchange per guard check, and no request sent. |
| `Dispatch.Lookup` | Action.c:38-44 | The scan stops at the first entry that is the sentinel or whose name equals `apiName`. Every earlier entry is a non-sentinel mismatch. The selected handler is that entry's, or none at the sentinel, and it agrees with the reference lookup `FirstMatch`. |
| `Dispatch.FirstMatchAt` | Action.c:39-44 | The reference lookup selects entry i's handler when every earlier entry is a named mismatch and entry i matches, and selects nothing when entry i is the sentinel. |
| `Dispatch.EntriesAfterSentinelIgnored` | Action.c:27 | Entries after the `{NULL, NULL}` sentinel never influence the lookup. |
| `Dispatch.FirstEntryWins` | Action.c:40-42 | The first matching entry wins over every later entry with the same name. |
| `Dispatch.ApiLookupTableRoutes` | Action.c:20-28 | The table sends "GET_Request" to GET_Request, "POST_Request" to POST_Request, and every other name to nothing. It ends with a sentinel. |
| `Dispatch.ActionUnknownName` | Action.c:47-54 | An unknown name runs no handler. No request, no token exchange and no clock reading happen. Only the "Invalid or unknown API name" message is written, and `Action()` returns. |
| `Dispatch.ActionRoutes` | Action.c:46-49 | A known name runs exactly its own request routine. |
| `Script.Vuser.constructor` | Action.c:8 | A fresh virtual user has the given parameters, `HttpRetCode` 0, nothing consumed and an empty log. |
| `Script.Vuser.Time` | Action.c:59 | `time(NULL)` returns the next clock reading and consumes it. |
| `Script.Vuser.GetPingToken` | GetPingToken.c:1-32 | The imperative GetPingToken leaves exactly the state `Refresh` specifies and returns 0. |
| `Script.Vuser.IssueRequest` | Action.c:62-91 | The guard-passed branch leaves exactly the state `Issue` specifies: one request, `HttpRetCode` set, the return code written, the verdict message and the transaction end. |
| `Script.Vuser.GuardedRequest` | Action.c:57-99 | The `goto` loop, rewritten as a `while` loop, leaves exactly the state `Run` specifies. It returns Some(0) when the routine returns and None when the fuel runs out. |
| `Script.Vuser.PostRequest` | Action.c:57-100 | POST_Request is the guarded loop with a POST request that carries `{json_body}`. |
| `Script.Vuser.GetRequest` | GET.c:1-43 | GET_Request (also Action.c:102-144, which is identical) is the guarded loop with a GET request that has no body. |
| `Script.Vuser.Action` | Action.c:30-55 | `Action()` leaves exactly the state `ActionSpec` specifies: the selected routine's run, or the unknown-name message. It returns 0 unless the routine is still looping when the fuel runs out. |

## Left out

- The LoadRunner runtime calls (`web_url`, `web_custom_request`,
  `web_submit_data`, `web_add_header`, `web_reg_save_param`,
  `lr_start/end_transaction`, `lr_output_message`) are not executed. They
  appear only as events in a log, and what they return comes from the
  caller-supplied `Env`. Boundary extraction is modelled as "captured or
  not", with the captured text supplied.
- Transaction timing, `lr_think_time(pause)` and the `Content-Type` header
  have no effect on the modelled state and are left out.
- Real HTTP, TLS and the identity provider are I/O. Their answers are
  parameters.
- `time(NULL)` is a caller-supplied sequence of readings. It is assumed
  monotone only where a lemma says so (`ClockMonotone`).
- The widths of C integers are not modelled. Integers are unbounded, so
  overflow of `atoi(...) + time(NULL)` and `%d` applied to a `long` are not
  represented.
- The model assumes every LoadRunner step continues after an error, as
  under the "continue on error" run-time setting. The script itself
  handles no errors. Under the default setting, these steps are errors
  that end the iteration: a failed `web_submit_data` (GetPingToken.c:9), a
  boundary `web_reg_save_param` does not find (GetPingToken.c:7-8), and an
  HTTP status of 400 or above on `web_custom_request`/`web_url`
  (Action.c:71, Action.c:116). The model does not capture that ending. Two
  results rely on the assumption. First, the LR_FAIL branch of
  `Requests.RequestEvents` for 4xx and 5xx statuses; under the default
  setting only the other non-passing statuses reach it. Second, the
  missing-capture case of `Requests.NonPositiveTtlNeverReturns`; under the
  default setting a missing `expires_in` ends the iteration instead of
  looping. The cases that need no assumption still loop under every
  setting: a non-positive value, or a non-numeric capture such as the
  quoted `"3600"` (`CDecimal.QuotedTtlReadsZero`).
- The undeclared globals `buffer` and `pause` are not modelled. The
  transaction name is the constant "api_name" that `sprintf` writes into
  `buffer`.
- `lr_eval_string` of an unsaved parameter yields the placeholder text
  `{name}`. Substitution inside longer templates (the URL, the headers) is
  not modelled beyond reading whole parameters.
- Concurrency across virtual users belongs to the harness. Each `Vuser`
  owns its state.
- `Script.Vuser.GuardedRequest`, `Script.Vuser.PostRequest`,
  `Script.Vuser.GetRequest` and `Script.Vuser.Action` bound the `goto` loop
  by `fuel`. Behaviour beyond the fuel bound (the source may loop forever)
  appears only as the `None` result.
