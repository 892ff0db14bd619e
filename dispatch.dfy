/** The operation dispatch of Action.c: `apiLookupTable` pairs handler names
    with handlers and ends with a `{NULL, NULL}` sentinel; `Action()` runs
    the handler of the first entry whose name is `strcmp`-equal to
    `{api_name}`, or writes "Invalid or unknown API name" when there is none. */
module Dispatch {
  import opened LrRuntime
  import opened Requests

  /** The functions the table can point to. */
  datatype Handler = GetRequest | PostRequest

  /** One table entry; `None` stands for NULL. */
  datatype ApiLookupEntry = ApiLookupEntry(name: Option<string>, func: Option<Handler>)

  predicate IsSentinel(e: ApiLookupEntry) {
    e.name == None
  }

  /** The table of Action.c: the GET API, the POST API, then the sentinel. */
  const ApiLookupTable: seq<ApiLookupEntry> := [
    ApiLookupEntry(Some("GET_Request"), Some(GetRequest)),
    ApiLookupEntry(Some("POST_Request"), Some(PostRequest)),
    ApiLookupEntry(None, None)
  ]

  /** The search loop only stays inside the table when some entry ends it. */
  predicate HasSentinel(table: seq<ApiLookupEntry>) {
    exists k :: 0 <= k < |table| && IsSentinel(table[k])
  }

  /** The reference lookup: the handler of the first entry, before the first
      sentinel, whose name equals `apiName`; None when the sentinel comes
      first. A matching entry with a NULL handler also selects nothing. */
  function FirstMatch(table: seq<ApiLookupEntry>, apiName: string): (r: Option<Handler>) {
    if table == [] || IsSentinel(table[0]) then None
    else if table[0].name.value == apiName then table[0].func
    else FirstMatch(table[1..], apiName)
  }

  /** The `for` loop of `Action()`: scan from index 0 until the sentinel,
      stopping at the first entry whose name equals `apiName`. `i` is the
      index the scan stops at. */
  method Lookup(table: seq<ApiLookupEntry>, apiName: string) returns (selected: Option<Handler>, i: nat)
    requires HasSentinel(table)
    ensures i < |table|
    ensures forall j :: 0 <= j < i ==> !IsSentinel(table[j]) && table[j].name.value != apiName
    ensures IsSentinel(table[i]) || table[i].name.value == apiName
    ensures selected == (if IsSentinel(table[i]) then None else table[i].func)
    ensures selected == FirstMatch(table, apiName)
  {
    ghost var k :| 0 <= k < |table| && IsSentinel(table[k]);
    selected := None;
    i := 0;
    while !IsSentinel(table[i])
      invariant i <= k
      invariant forall j :: 0 <= j < i ==> !IsSentinel(table[j]) && table[j].name.value != apiName
      invariant FirstMatch(table[i..], apiName) == FirstMatch(table, apiName)
      decreases k - i
    {
      if table[i].name.value == apiName {
        selected := table[i].func;
        return;
      }
      assert table[i..][1..] == table[i + 1..];
      i := i + 1;
    }
  }

  /** The characterisation of the reference lookup: it selects the handler
      of entry i exactly when every earlier entry is a named mismatch and
      entry i is a named match. */
  lemma {:induction false} FirstMatchAt(table: seq<ApiLookupEntry>, apiName: string, i: nat)
    requires i < |table|
    requires forall j :: 0 <= j < i ==> !IsSentinel(table[j]) && table[j].name.value != apiName
    ensures !IsSentinel(table[i]) && table[i].name.value == apiName ==> FirstMatch(table, apiName) == table[i].func
    ensures IsSentinel(table[i]) ==> FirstMatch(table, apiName) == None
  {
    if i > 0 {
      FirstMatchAt(table[1..], apiName, i - 1);
    }
  }

  /** Entries after the first sentinel never influence the lookup. */
  lemma {:induction false} EntriesAfterSentinelIgnored(prefix: seq<ApiLookupEntry>, sentinel: ApiLookupEntry,
                                                     rest1: seq<ApiLookupEntry>, rest2: seq<ApiLookupEntry>, apiName: string)
    requires IsSentinel(sentinel)
    ensures FirstMatch(prefix + [sentinel] + rest1, apiName) == FirstMatch(prefix + [sentinel] + rest2, apiName)
  {
    if prefix != [] {
      assert (prefix + [sentinel] + rest1)[1..] == prefix[1..] + [sentinel] + rest1;
      assert (prefix + [sentinel] + rest2)[1..] == prefix[1..] + [sentinel] + rest2;
      EntriesAfterSentinelIgnored(prefix[1..], sentinel, rest1, rest2, apiName);
    }
  }

  /** A matching entry hides every later entry with the same name. */
  lemma {:induction false} FirstEntryWins(prefix: seq<ApiLookupEntry>, e: ApiLookupEntry, rest: seq<ApiLookupEntry>, apiName: string)
    requires forall j :: 0 <= j < |prefix| ==> !IsSentinel(prefix[j]) && prefix[j].name.value != apiName
    requires !IsSentinel(e) && e.name.value == apiName
    ensures FirstMatch(prefix + [e] + rest, apiName) == e.func
  {
    if prefix != [] {
      assert (prefix + [e] + rest)[1..] == prefix[1..] + [e] + rest;
      FirstEntryWins(prefix[1..], e, rest, apiName);
    }
  }

  /** The table routes "GET_Request" to GET_Request, "POST_Request" to
      POST_Request, and every other name to nothing. */
  lemma ApiLookupTableRoutes(apiName: string)
    ensures FirstMatch(ApiLookupTable, apiName)
      == if apiName == "GET_Request" then Some(GetRequest)
         else if apiName == "POST_Request" then Some(PostRequest)
         else None
    ensures HasSentinel(ApiLookupTable)
  {
    var t := ApiLookupTable;
    assert IsSentinel(t[2]);
    assert t[1..][1..] == [ApiLookupEntry(None, None)];
    assert FirstMatch(t[1..][1..], apiName) == None;
    assert |"GET_Request"| != |"POST_Request"|;
    if apiName == "GET_Request" {
      assert FirstMatch(t, apiName) == Some(GetRequest);
    } else if apiName == "POST_Request" {
      assert FirstMatch(t[1..], apiName) == Some(PostRequest);
    } else {
      assert FirstMatch(t[1..], apiName) == None;
    }
  }

  /** The effect of one call of `Action()`, given at most `fuel` guard
      checks for the handler it runs: the handler's run, or for an unknown
      name a single output message and a return. */
  function ActionSpec(env: Env, s: State, fuel: nat): (r: Progress) {
    var apiName := EvalParam(s.params, "api_name");
    match FirstMatch(ApiLookupTable, apiName)
    case None => Returned(s.(log := s.log + [Output(UnknownApiName(apiName))]))
    case Some(GetRequest) => Run(env, s, Get, fuel)
    case Some(PostRequest) => Run(env, s, Post, fuel)
  }

  /** An unknown name runs no handler: no request, no token exchange, no
      clock reading, only the output message; `Action()` still returns. */
  lemma ActionUnknownName(env: Env, s: State, fuel: nat)
    requires EvalParam(s.params, "api_name") != "GET_Request"
    requires EvalParam(s.params, "api_name") != "POST_Request"
    ensures ActionSpec(env, s, fuel).Returned?
    ensures var t := ActionSpec(env, s, fuel).final;
      t.requests == s.requests && t.exchanges == s.exchanges && t.clockReads == s.clockReads
      && t.params == s.params && t.httpRetCode == s.httpRetCode
      && t.log == s.log + [Output(UnknownApiName(EvalParam(s.params, "api_name")))]
  {
    ApiLookupTableRoutes(EvalParam(s.params, "api_name"));
  }

  /** A known name runs its own request routine and nothing else. */
  lemma ActionRoutes(env: Env, s: State, fuel: nat)
    ensures EvalParam(s.params, "api_name") == "GET_Request" ==> ActionSpec(env, s, fuel) == Run(env, s, Get, fuel)
    ensures EvalParam(s.params, "api_name") == "POST_Request" ==> ActionSpec(env, s, fuel) == Run(env, s, Post, fuel)
  {
    ApiLookupTableRoutes(EvalParam(s.params, "api_name"));
  }
}
