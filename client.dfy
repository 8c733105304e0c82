/** The EspoCRM client of utils/espo_helpers.py: URL resolution, header
    assembly, the choice between a JSON body and a query string, and the
    classification of every outcome into the five-field result envelope.
    The HTTP library is a parameter `send` from the prepared request to its
    outcome. */
module Client {
  import opened Values
  import opened PyDict
  import opened Names
  import opened Query

  /** What the HTTP library reports for a response body: parsed JSON, or the
      raw text when `resp.json()` raises `ValueError`. */
  datatype Body = JsonBody(value: Value) | TextBody(text: string)

  /** The outcome of `requests.request`: a `RequestException` with its
      message, or a response with a status code. */
  datatype Outcome = TransportFailure(message: string) | HttpResponse(status: int, body: Body)

  /** The arguments handed to `requests.request`. The URL is kept without its
      query; the query is the ordered pair list that `urlencode` encodes and
      that follows a `?` whenever it is non-empty. */
  datatype HttpRequest = HttpRequest(
    httpMethod: string,
    url: string,
    query: Dict<string>,
    headers: Dict<string>,
    json: Option<Dict<Value>>,
    timeout: int)

  datatype ErrorType = Network | Api

  /** `{status_code, ok, data, error, error_type}`. */
  datatype Envelope = Envelope(
    statusCode: Option<int>,
    ok: bool,
    data: Value,
    error: Option<string>,
    errorType: Option<ErrorType>)

  const ApiKeyHeader: string := "X-Api-Key"

  predicate StartsWith(s: string, prefix: string) {
    |prefix| <= |s| && s[..|prefix|] == prefix
  }

  /** `s.rstrip(c)`: `s` without its trailing run of `c`. */
  function RStrip(s: string, c: char): (r: string)
    ensures |r| <= |s| && s[..|r|] == r
    ensures forall i :: |r| <= i < |s| ==> s[i] == c
    ensures r == [] || r[|r| - 1] != c
    decreases |s|
  {
    if s != [] && s[|s| - 1] == c then RStrip(s[..|s| - 1], c) else s
  }

  /** `s.lstrip(c)`: `s` without its leading run of `c`. */
  function LStrip(s: string, c: char): (r: string)
    ensures |r| <= |s| && s[|s| - |r|..] == r
    ensures forall i :: 0 <= i < |s| - |r| ==> s[i] == c
    ensures r == [] || r[0] != c
    decreases |s|
  {
    if s != [] && s[0] == c then LStrip(s[1..], c) else s
  }

  predicate IsAbsolute(action: string) {
    StartsWith(action, "http://") || StartsWith(action, "https://")
  }

  /** `normalize_url(action)` for a client whose `self.url` is `base`. */
  function NormalizeUrl(base: string, action: Option<string>): (r: string)
    ensures action.None? ==> r == base
    ensures action.Some? && IsAbsolute(action.value) ==> r == action.value
  {
    match action
    case None => base
    case Some(sa) =>
      if IsAbsolute(sa) then sa
      else RStrip(base, '/') + "/" + LStrip(sa, '/')
  }

  /** A relative action is joined to the base with exactly one slash: the base
      loses its trailing slashes, the action its leading ones, and nothing else
      of either is changed. */
  lemma NormalizeUrlRelative(base: string, action: string)
    requires !IsAbsolute(action)
    ensures exists b, p ::
      NormalizeUrl(base, Some(action)) == b + "/" + p
      && (b == [] || b[|b| - 1] != '/') && (p == [] || p[0] != '/')
      && StartsWith(base, b) && (forall i :: |b| <= i < |base| ==> base[i] == '/')
      && |p| <= |action| && action[|action| - |p|..] == p && (forall i :: 0 <= i < |action| - |p| ==> action[i] == '/')
  {
    var b, p := RStrip(base, '/'), LStrip(action, '/');
    assert NormalizeUrl(base, Some(action)) == b + "/" + p;
    assert StartsWith(base, b) && (forall i :: |b| <= i < |base| ==> base[i] == '/');
    assert |p| <= |action| && action[|action| - |p|..] == p && (forall i :: 0 <= i < |action| - |p| ==> action[i] == '/');
  }

  /** Any number of slashes on either side of the junction give the same URL. */
  lemma {:induction false} NormalizeUrlSlashes(base: string, m: nat, n: nat, path: string)
    requires base == [] || base[|base| - 1] != '/'
    requires path == [] || path[0] != '/'
    requires !IsAbsolute(Slashes(n) + path)
    ensures NormalizeUrl(base + Slashes(m), Some(Slashes(n) + path)) == base + "/" + path
  {
    RStripSlashes(base, m);
    LStripSlashes(n, path);
  }

  function Slashes(n: nat): (s: string)
    ensures |s| == n && forall i :: 0 <= i < n ==> s[i] == '/'
  {
    seq(n, _ => '/')
  }

  lemma {:induction false} RStripSlashes(base: string, m: nat)
    requires base == [] || base[|base| - 1] != '/'
    ensures RStrip(base + Slashes(m), '/') == base
    decreases m
  {
    if m > 0 {
      assert (base + Slashes(m))[..|base| + m - 1] == base + Slashes(m - 1);
      RStripSlashes(base, m - 1);
    } else {
      assert base + Slashes(m) == base;
    }
  }

  lemma {:induction false} LStripSlashes(n: nat, path: string)
    requires path == [] || path[0] != '/'
    ensures LStrip(Slashes(n) + path, '/') == path
    decreases n
  {
    if n > 0 {
      assert (Slashes(n) + path)[1..] == Slashes(n - 1) + path;
      LStripSlashes(n - 1, path);
    } else {
      assert Slashes(n) + path == path;
    }
  }

  /** `method.upper() in ["POST", "PATCH", "PUT"]` (ASCII upper-casing). */
  predicate SendsBody(httpMethod: string) {
    UpperAll(httpMethod) in ["POST", "PATCH", "PUT"]
  }

  function UpperAll(s: string): (r: string)
    ensures |r| == |s| && forall i :: 0 <= i < |s| ==> r[i] == Upper(s[i])
  {
    if s == [] then [] else [Upper(s[0])] + UpperAll(s[1..])
  }

  /** The headers of a call: the defaults, overlaid by non-empty extra
      headers, then the API key. */
  function MergeHeaders(defaults: Dict<string>, extra: Option<Dict<string>>, apiKey: string): Dict<string> {
    var base := Update([], defaults);
    var overlaid := if extra.Some? && extra.value != [] then Update(base, extra.value) else base;
    Set(overlaid, ApiKeyHeader, apiKey)
  }

  /** The API key header always holds the configured key, whatever the
      defaults and extra headers say; any other header holds the last value
      the extra headers give it, else the last the defaults give it. */
  lemma MergeHeadersLookup(defaults: Dict<string>, extra: Option<Dict<string>>, apiKey: string, h: string)
    ensures Get(MergeHeaders(defaults, extra, apiKey), ApiKeyHeader) == Some(apiKey)
    ensures h != ApiKeyHeader ==>
              Get(MergeHeaders(defaults, extra, apiKey), h)
              == if extra.Some? && h in Keys(extra.value) then LastValue(extra.value, h) else LastValue(defaults, h)
  {
    UpdateLookup([], defaults, h);
    if extra.Some? && extra.value != [] {
      UpdateLookup(Update([], defaults), extra.value, h);
    }
  }

  /** The request `call_api` hands to the HTTP library, for a client whose
      fields are `baseUrl`, `apiKey` and `defaults`. */
  function Prepare(baseUrl: string, apiKey: string, defaults: Dict<string>, httpMethod: string, action: Option<string>,
                   params: Dict<Value>, extra: Option<Dict<string>>, timeout: int, forceQueryParams: bool): HttpRequest
  {
    var url := NormalizeUrl(baseUrl, action);
    var headers := MergeHeaders(defaults, extra, apiKey);
    if SendsBody(httpMethod) && !forceQueryParams then
      HttpRequest(httpMethod, url, [], headers, if params != [] then Some(params) else None, timeout)
    else
      HttpRequest(httpMethod, url, if params != [] then QueryPairs(Dict(params)) else [], headers, None, timeout)
  }

  /** Body or query: a POST, PATCH or PUT not forced to the query sends its
      non-empty parameters as the JSON body and no query; everything else
      sends no body and the flattened parameters as the query, which is
      empty when there are no parameters. The URL is the resolved action
      either way. */
  lemma PrepareBodyOrQuery(baseUrl: string, apiKey: string, defaults: Dict<string>, httpMethod: string, action: Option<string>,
                           params: Dict<Value>, extra: Option<Dict<string>>, timeout: int, force: bool)
    ensures var r := Prepare(baseUrl, apiKey, defaults, httpMethod, action, params, extra, timeout, force);
      && r.url == NormalizeUrl(baseUrl, action)
      && r.httpMethod == httpMethod && r.timeout == timeout
      && (SendsBody(httpMethod) && !force ==> r.query == [] && (r.json.Some? <==> params != []) && (r.json.Some? ==> r.json.value == params))
      && (!(SendsBody(httpMethod) && !force) ==> r.json == None && r.query == QueryPairs(Dict(params)))
  {
    if params == [] {
      assert Leaves([], Dict(params)) == [];
    }
  }

  /** The envelope for an outcome. */
  function Classify(outcome: Outcome): (e: Envelope)
    ensures e.statusCode.None? <==> outcome.TransportFailure?
    ensures outcome.HttpResponse? ==> e.statusCode == Some(outcome.status)
    ensures e.ok <==> outcome.HttpResponse? && 200 <= outcome.status < 300
    ensures e.error.None? <==> e.ok
    ensures e.errorType == Some(Network) <==> outcome.TransportFailure?
    ensures e.errorType == Some(Api) <==> outcome.HttpResponse? && !e.ok
    ensures e.errorType.None? <==> e.ok
    ensures outcome.TransportFailure? ==> e.data == Null && e.error == Some(outcome.message)
    ensures outcome.HttpResponse? && !e.ok ==> e.error == Some("HTTP " + IntToDecimal(outcome.status))
    ensures outcome.HttpResponse? && outcome.body.JsonBody? ==> e.data == outcome.body.value
    ensures outcome.HttpResponse? && outcome.body.TextBody? ==> e.data == Str(outcome.body.text)
  {
    match outcome
    case TransportFailure(message) => Envelope(None, false, Null, Some(message), Some(Network))
    case HttpResponse(status, body) =>
      var data := match body case JsonBody(v) => v case TextBody(t) => Str(t);
      var ok := 200 <= status < 300;
      Envelope(Some(status), ok, data, if ok then None else Some("HTTP " + IntToDecimal(status)),
               if ok then None else Some(Api))
  }

  /** An `EspoAPI` client. */
  class EspoApi {
    const url: string
    const apiKey: string
    const defaultHeaders: Dict<string>

    /** `EspoAPI(url, api_key, default_headers)`: the base URL loses its
        trailing slashes, missing default headers become `{}`. */
    constructor(url: string, apiKey: string, defaultHeaders: Option<Dict<string>>)
      ensures this.url == RStrip(url, '/')
      ensures this.apiKey == apiKey
      ensures this.defaultHeaders == if defaultHeaders.Some? then defaultHeaders.value else []
    {
      this.url := RStrip(url, '/');
      this.apiKey := apiKey;
      this.defaultHeaders := if defaultHeaders.Some? then defaultHeaders.value else [];
    }

    /** `call_api`: builds the request step by step, sends it, and classifies
        the outcome. `allowNon2xx` only selects log messages, so it does not
        affect the result. */
    method CallApi(httpMethod: string, action: Option<string>, params: Dict<Value>, extraHeaders: Option<Dict<string>>,
                   timeout: int, forceQueryParams: bool, allowNon2xx: bool, send: HttpRequest -> Outcome)
      returns (req: HttpRequest, env: Envelope)
      ensures req == Prepare(url, apiKey, defaultHeaders, httpMethod, action, params, extraHeaders, timeout, forceQueryParams)
      ensures env == Classify(send(req))
    {
      var target := NormalizeUrl(url, action);
      var headers: Dict<string> := [];
      headers := Update(headers, defaultHeaders);
      if extraHeaders.Some? && extraHeaders.value != [] {
        headers := Update(headers, extraHeaders.value);
      }
      headers := Set(headers, ApiKeyHeader, apiKey);
      var json: Option<Dict<Value>> := None;
      var query: Dict<string> := [];
      if SendsBody(httpMethod) && !forceQueryParams {
        if params != [] {
          json := Some(params);
        }
      } else {
        if params != [] {
          query := HttpBuildQuery(Dict(params));
        }
      }
      req := HttpRequest(httpMethod, target, query, headers, json, timeout);
      env := Classify(send(req));
    }

    /** `request`: the envelope's data, except `None` for a 204 response. */
    method Request(httpMethod: string, action: Option<string>, params: Option<Dict<Value>>, extraHeaders: Option<Dict<string>>,
                   forceQueryParams: bool, allowNon2xx: bool, timeout: int, send: HttpRequest -> Outcome)
      returns (data: Value)
      ensures var outcome := send(Prepare(url, apiKey, defaultHeaders, httpMethod, action,
                                          if params.Some? then params.value else [], extraHeaders, timeout, forceQueryParams));
        && (outcome.TransportFailure? ==> data == Null)
        && (outcome.HttpResponse? && outcome.status == 204 ==> data == Null)
        && (outcome.HttpResponse? && outcome.status != 204 ==> data == Classify(outcome).data)
    {
      var p := if params.Some? then params.value else [];
      var req, result := CallApi(httpMethod, action, p, extraHeaders, timeout, forceQueryParams, allowNon2xx, send);
      if result.statusCode == Some(204) {
        data := Null;
      } else {
        data := result.data;
      }
    }
  }

  /** Python truthiness of an optional string. */
  predicate Given(s: Option<string>) {
    s.Some? && s.value != []
  }

  /** `get_client(url, api_key)`: no client unless both are non-empty. */
  method GetClient(url: Option<string>, apiKey: Option<string>) returns (client: EspoApi?)
    ensures client == null <==> !Given(url) || !Given(apiKey)
    ensures client != null ==> fresh(client) && client.url == RStrip(url.value, '/')
                               && client.apiKey == apiKey.value && client.defaultHeaders == []
  {
    if !Given(url) || !Given(apiKey) {
      return null;
    }
    client := new EspoApi(url.value, apiKey.value, None);
  }
}
