/** The part of the LoadRunner runtime the script's logic depends on, as
    values: the virtual user's parameter store, the log of transactions and
    requests, and the environment (clock, identity provider, API server)
    whose answers the caller supplies. */
module LrRuntime {
  import CDecimal

  datatype Option<T> = None | Some(value: T)

  /** A parameter store: `lr_save_string` and `web_reg_save_param` write it,
      `lr_eval_string("{name}")` reads it. */
  type Params = map<string, string>

  /** What `lr_eval_string("{name}")` yields: the saved value, or the
      placeholder text itself when the parameter has never been saved. */
  function EvalParam(params: Params, name: string): (r: string) {
    if name in params then params[name] else ['{'] + name + ['}']
  }

  /** A `web_reg_save_param` capture: when the boundaries are found in the
      response, the parameter is overwritten; otherwise the store is left as it was. */
  function SaveCaptured(params: Params, name: string, captured: Option<string>): (r: Params) {
    match captured
    case Some(v) => params[name := v]
    case None => params
  }

  /** The status `lr_end_transaction` is given. */
  datatype LrStatus = LrPass | LrFail | LrAuto

  datatype Verb = Get | Post

  /** One request to the target API, as the script builds it: the URL from
      `{host_name}{endpoint}`, the `Authorization: Bearer` and `x-api-key`
      headers, and for POST the body `{json_body}`. */
  datatype HttpRequest = HttpRequest(verb: Verb, url: string, bearer: string, apiKey: string, body: Option<string>)

  /** What the virtual user does that the outside world can see. */
  datatype Event =
    | TxStart(name: string)
    | TxEnd(name: string, status: LrStatus)
    | TokenExchange
    | Sent(request: HttpRequest)
    | Output(message: Message)

  /** The `lr_output_message` calls of the script, by format string and arguments. */
  datatype Message =
    | ReturnCode(code: int)                         // "Return Code = %d"
    | RequestPassed(input1: string, input2: string) // "Request passed with inputs: %s %s"
    | RequestFailed(input1: string, input2: string) // "Request failed with inputs: %s %s"
    | UnknownApiName(apiName: string)               // "Invalid or unknown API name: %s"

  /** The text a message is written as. */
  function Text(m: Message): (r: string) {
    match m
    case ReturnCode(code) => "Return Code = " + CDecimal.FormatDecimal(code)
    case RequestPassed(a, b) => "Request passed with inputs: " + a + " " + b
    case RequestFailed(a, b) => "Request failed with inputs: " + a + " " + b
    case UnknownApiName(name) => "Invalid or unknown API name: " + name
  }

  /** The caller-supplied answers of the world: the k-th reading of
      `time(NULL)`, what the k-th token exchange captures for `expires_in`
      and `access_token` (None when the boundaries were not found), and the
      HTTP status of the k-th API request. */
  datatype Env = Env(
    clock: nat -> int,
    expiresIn: nat -> Option<string>,
    accessToken: nat -> Option<string>,
    status: nat -> int)

  /** The virtual user's state: its parameter store, the global
      `HttpRetCode`, how many clock readings, token exchanges and API
      requests it has consumed, and its event log. */
  datatype State = State(
    params: Params,
    httpRetCode: int,
    clockReads: nat,
    exchanges: nat,
    requests: nat,
    log: seq<Event>)

  /** `n` copies of `es`, one after the other. */
  function Repeat<T>(es: seq<T>, n: nat): (r: seq<T>) {
    if n == 0 then [] else es + Repeat(es, n - 1)
  }
}
