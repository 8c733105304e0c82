/** `espo_list_users_tool` (tools/espo_list_users.py): preparing and making the GET that
    lists User records. */
module ListUsersTool {
  import opened Values
  import opened PyDict
  import opened Names
  import opened Params
  import opened Query
  import opened Client
  import opened Tools

  datatype Args = Args(query: ListArgs, xNoTotal: Option<bool>)

  /** `locals()` where the parameters are built: the search arguments, then
      `x_no_total` and `auth_response`. */
  function Locals(a: Args): Dict<Value> {
    ListLocals(a.query, "x_no_total", OptBool(a.xNoTotal))
  }

  /** The search parameters, sent as the query string. */
  function QueryParams(a: Args): Dict<Value> {
    ListParams(a.query, "x_no_total", OptBool(a.xNoTotal))
  }

  /** The optional header: `X-No-Total: true` only when `x_no_total` is
      `True`; `False` and `None` both send no header. */
  function UserHeaders(flag: Option<bool>): (h: Option<Dict<string>>)
    ensures h.Some? <==> flag == Some(true)
    ensures h.Some? ==> Keys(h.value) == {NoTotalHeader} && Get(h.value, NoTotalHeader) == Some("true")
  {
    if flag == Some(true) then Some(Set([], NoTotalHeader, "true")) else None
  }

  /** `espo_list_users_tool(...)`: a GET with the parameters as its query. */
  method ListUsers(auth: Option<AuthError>, apiAddress: string, apiKey: string, a: Args, send: HttpRequest -> Outcome)
    returns (r: ToolResult)
    ensures r.Refused? <==> auth.Some?
    ensures auth.Some? ==> r.error == auth.value
    ensures r.Called? ==> r.call == ApiCall("GET", Some("User"), QueryParams(a), UserHeaders(a.xNoTotal))
    ensures r.Called? ==> r.request == Prepare(RStrip(apiAddress, '/'), apiKey, [], "GET", Some("User"), QueryParams(a),
                                               r.call.extraHeaders, DefaultTimeout, false)
    ensures r.Called? ==> r.envelope == Classify(send(r.request))
  {
    if auth.Some? {
      return Refused(auth.value);
    }
    var params := BuildEspoParams(Locals(a), ListExcluded("x_no_total"));
    var extra := if a.xNoTotal.Some? && a.xNoTotal.value then Some(Set([], NoTotalHeader, "true")) else None;
    var client := new EspoApi(apiAddress, apiKey, None);
    var req, env := client.CallApi("GET", Some("User"), params, extra, DefaultTimeout, false, false, send);
    r := Called(ApiCall("GET", Some("User"), params, extra), req, env);
  }

  /** The request carries no body: the parameters travel flattened in the
      query string, which never holds the flag; the flag travels among the
      headers, next to the API key. */
  lemma RequestIsQuery(baseUrl: string, apiKey: string, a: Args)
    ensures var r := Prepare(baseUrl, apiKey, [], "GET", Some("User"), QueryParams(a), UserHeaders(a.xNoTotal), DefaultTimeout, false);
      && r.json == None
      && r.query == QueryPairs(Dict(QueryParams(a)))
      && Get(r.headers, ApiKeyHeader) == Some(apiKey)
      && Get(r.headers, NoTotalHeader) == if a.xNoTotal == Some(true) then Some("true") else None
    ensures "xNoTotal" !in Keys(QueryParams(a))
  {
    var h := UserHeaders(a.xNoTotal);
    GetSendsQuery(baseUrl, apiKey, "User", QueryParams(a), h, NoTotalHeader);
    if h.Some? {
      SetNoDup([], NoTotalHeader, h.value[0].1);
      LastValueNoDup(h.value, NoTotalHeader);
    }
    SearchNamesAvoidExcluded();
    SearchNamesRenameAway("xNoTotal");
    ListParamsLeaveOut(a.query, "x_no_total", OptBool(a.xNoTotal), "xNoTotal");
  }
}
