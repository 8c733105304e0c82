/** `espo_list_accounts_tool` (tools/espo_list_accounts.py): preparing and making the GET that
    lists Account records. */
module ListAccountsTool {
  import opened Values
  import opened PyDict
  import opened Names
  import opened Params
  import opened Query
  import opened Client
  import opened Tools

  datatype Args = Args(query: ListArgs, noTotal: Option<bool>)

  /** `locals()` where the parameters are built: the search arguments, then
      `no_total` and `auth_response`. */
  function Locals(a: Args): Dict<Value> {
    ListLocals(a.query, "no_total", OptBool(a.noTotal))
  }

  /** The search parameters, sent as the query string. */
  function QueryParams(a: Args): Dict<Value> {
    ListParams(a.query, "no_total", OptBool(a.noTotal))
  }

  /** The optional header: `X-No-Total` whenever `no_total` is not `None`,
      so an explicit `False` is sent as `"false"`. */
  function NoTotalHeaders(flag: Option<bool>): (h: Option<Dict<string>>)
    ensures h.None? <==> flag.None?
    ensures h.Some? ==> Keys(h.value) == {NoTotalHeader} && Get(h.value, NoTotalHeader) == Some(BoolText(flag.value))
  {
    if flag.Some? then Some(Set([], NoTotalHeader, BoolText(flag.value))) else None
  }

  /** `espo_list_accounts_tool(...)`: a GET with the parameters as its query. */
  method ListAccounts(auth: Option<AuthError>, apiAddress: string, apiKey: string, a: Args, send: HttpRequest -> Outcome)
    returns (r: ToolResult)
    ensures r.Refused? <==> auth.Some?
    ensures auth.Some? ==> r.error == auth.value
    ensures r.Called? ==> r.call == ApiCall("GET", Some("Account"), QueryParams(a), NoTotalHeaders(a.noTotal))
    ensures r.Called? ==> r.request == Prepare(RStrip(apiAddress, '/'), apiKey, [], "GET", Some("Account"), QueryParams(a),
                                               r.call.extraHeaders, DefaultTimeout, false)
    ensures r.Called? ==> r.envelope == Classify(send(r.request))
  {
    if auth.Some? {
      return Refused(auth.value);
    }
    var params := BuildEspoParams(Locals(a), ListExcluded("no_total"));
    var extraHeaders: Dict<string> := [];
    if a.noTotal.Some? {
      extraHeaders := Set(extraHeaders, NoTotalHeader, BoolText(a.noTotal.value));
    }
    var extra := if extraHeaders != [] then Some(extraHeaders) else None;
    var client := new EspoApi(apiAddress, apiKey, None);
    var req, env := client.CallApi("GET", Some("Account"), params, extra, DefaultTimeout, false, false, send);
    r := Called(ApiCall("GET", Some("Account"), params, extra), req, env);
  }

  /** The request carries no body: the parameters travel flattened in the
      query string, which never holds the flag; the flag travels among the
      headers, next to the API key. */
  lemma RequestIsQuery(baseUrl: string, apiKey: string, a: Args)
    ensures var r := Prepare(baseUrl, apiKey, [], "GET", Some("Account"), QueryParams(a), NoTotalHeaders(a.noTotal), DefaultTimeout, false);
      && r.json == None
      && r.query == QueryPairs(Dict(QueryParams(a)))
      && Get(r.headers, ApiKeyHeader) == Some(apiKey)
      && Get(r.headers, NoTotalHeader) == if a.noTotal.Some? then Some(BoolText(a.noTotal.value)) else None
    ensures "noTotal" !in Keys(QueryParams(a))
  {
    var h := NoTotalHeaders(a.noTotal);
    GetSendsQuery(baseUrl, apiKey, "Account", QueryParams(a), h, NoTotalHeader);
    if h.Some? {
      SetNoDup([], NoTotalHeader, h.value[0].1);
      LastValueNoDup(h.value, NoTotalHeader);
    }
    SearchNamesAvoidExcluded();
    SearchNamesRenameAway("noTotal");
    ListParamsLeaveOut(a.query, "no_total", OptBool(a.noTotal), "noTotal");
  }
}
