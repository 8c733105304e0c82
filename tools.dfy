/** What the tool functions share: the refusal from the access check, the
    `call_api` invocation a tool makes, the duplicate-handling headers of the
    create tools, and the query parameters of the list tools. */
module Tools {
  import opened Values
  import opened PyDict
  import opened Names
  import opened Params
  import opened Query
  import opened Client

  /** The error response of `check_access`: `{"status": "error", "error": message}`. */
  datatype AuthError = AuthError(message: string)

  /** The arguments a tool passes to `EspoAPI.call_api`. */
  datatype ApiCall = ApiCall(httpMethod: string, action: Option<string>, params: Dict<Value>, extraHeaders: Option<Dict<string>>)

  /** A tool's return value: the access check's error, or the envelope of its
      one API call together with the call and the request it led to. */
  datatype ToolResult =
    | Refused(error: AuthError)
    | Called(call: ApiCall, request: HttpRequest, envelope: Envelope)

  /** The timeout `call_api` uses when a tool does not pass one. */
  const DefaultTimeout: int := 10

  const DuplicateSourceHeader: string := "X-Duplicate-Source-Id"
  const SkipDuplicateHeader: string := "X-Skip-Duplicate-Check"
  const NoTotalHeader: string := "X-No-Total"

  /** The parameter the list tools send their `where_group` argument under. */
  const WhereGroupKey: string := "whereGroup"

  /** `"true" if b else "false"`. */
  function BoolText(b: bool): (t: string)
    ensures t == "true" <==> b
    ensures t == "false" <==> !b
  {
    if b then "true" else "false"
  }

  /** The extra headers of the create tools, `None` when empty: the source
      record's id when one is given (a non-empty string), and the skip flag
      as `"true"`/`"false"` whenever it is not `None`, so an explicit `False`
      is still sent. */
  function DuplicateHeaders(sourceId: Option<string>, skipCheck: Option<bool>): (h: Option<Dict<string>>)
    ensures h.None? <==> !Given(sourceId) && skipCheck.None?
    ensures h.Some? ==> Get(h.value, DuplicateSourceHeader) == if Given(sourceId) then Some(sourceId.value) else None
    ensures h.Some? ==> Get(h.value, SkipDuplicateHeader) == if skipCheck.Some? then Some(BoolText(skipCheck.value)) else None
    ensures h.Some? ==> Keys(h.value) <= {DuplicateSourceHeader, SkipDuplicateHeader}
  {
    var withSource: Dict<string> := if Given(sourceId) then [(DuplicateSourceHeader, sourceId.value)] else [];
    var withSkip := if skipCheck.Some? then Set(withSource, SkipDuplicateHeader, BoolText(skipCheck.value)) else withSource;
    if withSkip != [] then Some(withSkip) else None
  }

  /** The duplicate-handling headers reach the request as given, and the API
      key header next to them holds the configured key. */
  lemma DuplicateHeadersSent(baseUrl: string, apiKey: string, httpMethod: string, action: Option<string>,
                             params: Dict<Value>, sourceId: Option<string>, skipCheck: Option<bool>, timeout: int)
    ensures var r := Prepare(baseUrl, apiKey, [], httpMethod, action, params, DuplicateHeaders(sourceId, skipCheck), timeout, false);
      && Get(r.headers, ApiKeyHeader) == Some(apiKey)
      && Get(r.headers, DuplicateSourceHeader) == (if Given(sourceId) then Some(sourceId.value) else None)
      && Get(r.headers, SkipDuplicateHeader) == (if skipCheck.Some? then Some(BoolText(skipCheck.value)) else None)
  {
    var h := DuplicateHeaders(sourceId, skipCheck);
    MergeHeadersLookup([], h, apiKey, DuplicateSourceHeader);
    MergeHeadersLookup([], h, apiKey, SkipDuplicateHeader);
    if h.Some? {
      DuplicateHeadersNoDup(sourceId, skipCheck);
      LastValueNoDup(h.value, DuplicateSourceHeader);
      LastValueNoDup(h.value, SkipDuplicateHeader);
    }
  }

  lemma DuplicateHeadersNoDup(sourceId: Option<string>, skipCheck: Option<bool>)
    requires DuplicateHeaders(sourceId, skipCheck).Some?
    ensures NoDupKeys(DuplicateHeaders(sourceId, skipCheck).value)
  {
    var withSource: Dict<string> := if Given(sourceId) then [(DuplicateSourceHeader, sourceId.value)] else [];
    if skipCheck.Some? {
      SetNoDup(withSource, SkipDuplicateHeader, BoolText(skipCheck.value));
    }
  }

  /** A GET carries no body: its parameters travel flattened in the query
      string, and a header the tool adds reaches the request next to the API key. */
  lemma GetSendsQuery(baseUrl: string, apiKey: string, action: string, params: Dict<Value>,
                      extra: Option<Dict<string>>, h: string)
    requires h != ApiKeyHeader
    ensures var r := Prepare(baseUrl, apiKey, [], "GET", Some(action), params, extra, DefaultTimeout, false);
      && r.json == None
      && r.query == QueryPairs(Dict(params))
      && Get(r.headers, ApiKeyHeader) == Some(apiKey)
      && Get(r.headers, h) == if extra.Some? && h in Keys(extra.value) then LastValue(extra.value, h) else None
  {
    assert UpperAll("GET") == "GET";
    PrepareBodyOrQuery(baseUrl, apiKey, [], "GET", Some(action), params, extra, DefaultTimeout, false);
    MergeHeadersLookup([], extra, apiKey, h);
  }

  /** An optional argument as the Python value it holds. */
  function OptStr(o: Option<string>): (v: Value)
    ensures v == Null <==> o.None?
  {
    if o.Some? then Str(o.value) else Null
  }

  function OptBool(o: Option<bool>): (v: Value)
    ensures v == Null <==> o.None?
  {
    if o.Some? then Bool(o.value) else Null
  }

  function OptDict(o: Option<Dict<Value>>): (v: Value)
    ensures v == Null <==> o.None?
  {
    if o.Some? then Dict(o.value) else Null
  }

  /** The search arguments both list tools take, each `None` when not given. */
  datatype ListArgs = ListArgs(
    attributeSelect: Value,
    boolFilterList: Value,
    maxSize: Value,
    offset: Value,
    order: Value,
    orderBy: Value,
    primaryFilter: Value,
    textFilter: Value,
    whereGroup: Value)

  predicate NoFilters(q: ListArgs) {
    q.attributeSelect == Null && q.boolFilterList == Null && q.maxSize == Null && q.offset == Null && q.order == Null
    && q.orderBy == Null && q.primaryFilter == Null && q.textFilter == Null && q.whereGroup == Null
  }

  /** The names of the search arguments of the list tools. */
  const SearchNames: set<string> := {"attribute_select", "bool_filter_list", "max_size", "offset", "order",
                                     "order_by", "primary_filter", "text_filter", "where_group"}

  /** `locals()` of a list tool where its parameters are built: the search
      arguments in declaration order, the tool's header flag under its own
      name, then `auth_response`, which is `None` once the access check passed. */
  function ListLocals(q: ListArgs, flagName: string, flag: Value): Dict<Value> {
    [("attribute_select", q.attributeSelect),
     ("bool_filter_list", q.boolFilterList),
     ("max_size", q.maxSize),
     ("offset", q.offset),
     ("order", q.order),
     ("order_by", q.orderBy),
     ("primary_filter", q.primaryFilter),
     ("text_filter", q.textFilter),
     ("where_group", q.whereGroup),
     (flagName, flag),
     ("auth_response", Null)]
  }

  /** What a list tool excludes: its header flag and the access check's result. */
  function ListExcluded(flagName: string): set<string> {
    {flagName, "auth_response"}
  }

  /** The query parameters of a list tool. */
  function ListParams(q: ListArgs, flagName: string, flag: Value): Dict<Value> {
    BuildSpec(ListLocals(q, flagName, flag), ListExcluded(flagName))
  }

  /** A search argument of a list tool is kept exactly when it is given: the
      flag, a parameter of its own, is never one of the search names. */
  lemma ListSearchKept(q: ListArgs, flagName: string, flag: Value, i: int)
    requires flagName !in SearchNames && 0 <= i < 9
    ensures Kept(ListLocals(q, flagName, flag)[i], ListExcluded(flagName)) <==> ListLocals(q, flagName, flag)[i].1 != Null
  {
    var l := ListLocals(q, flagName, flag);
    assert l[i].0 in SearchNames;
  }

  /** No `None` is ever sent in a list query. */
  lemma ListParamsHaveNoNull(q: ListArgs, flagName: string, flag: Value)
    ensures forall k :: Get(ListParams(q, flagName, flag), k) != Some(Null)
  {
    BuildNoNull(ListLocals(q, flagName, flag), ListExcluded(flagName));
  }

  /** A key that no search name renames to is never in a list query: the
      flag and the access check's result are excluded by name. */
  lemma ListParamsLeaveOut(q: ListArgs, flagName: string, flag: Value, key: string)
    requires forall n {:trigger SnakeToCamel(n)} :: n in SearchNames ==> SnakeToCamel(n) != key
    ensures key !in Keys(ListParams(q, flagName, flag))
  {
    var l, ex := ListLocals(q, flagName, flag), ListExcluded(flagName);
    forall i | 0 <= i < |l| && Kept(l[i], ex)
      ensures l[i].0 in SearchNames
    {
      assert i < 9;
    }
    KeptNamesAbsent(l, ex, SearchNames, key);
  }

  /** `BuildKeyAbsent` when every kept local is named from `names` and no
      name in `names` renames to `key`. */
  lemma KeptNamesAbsent(l: Dict<Value>, ex: set<string>, names: set<string>, key: string)
    requires forall i :: 0 <= i < |l| && Kept(l[i], ex) ==> l[i].0 in names
    requires forall n :: n in names ==> SnakeToCamel(n) != key
    ensures key !in Keys(BuildSpec(l, ex))
  {
    BuildKeyAbsent(l, ex, key);
  }

  /** A key that every search name is `Distinguished` from is one that no
      search name renames to. */
  lemma SearchNamesRenameAway(key: string)
    requires forall n :: n in SearchNames ==> Distinguished(n, key)
    ensures forall n {:trigger SnakeToCamel(n)} :: n in SearchNames ==> SnakeToCamel(n) != key
  {
    forall n | n in SearchNames
      ensures SnakeToCamel(n) != key
    {
      DistinguishedRenames(n, key);
    }
  }

  /** The keys the two flags and the access check's result would rename to
      are each distinguished from every search name. */
  lemma SearchNamesAvoidExcluded()
    ensures forall n :: n in SearchNames ==> Distinguished(n, "noTotal")
    ensures forall n :: n in SearchNames ==> Distinguished(n, "xNoTotal")
    ensures forall n :: n in SearchNames ==> Distinguished(n, "authResponse")
  {
  }

  /** The access check's result never reaches a list query. */
  lemma ListParamsLeaveOutAuthResponse(q: ListArgs, flagName: string, flag: Value)
    ensures "authResponse" !in Keys(ListParams(q, flagName, flag))
  {
    SearchNamesAvoidExcluded();
    SearchNamesRenameAway("authResponse");
    ListParamsLeaveOut(q, flagName, flag, "authResponse");
  }

  /** A list tool sends an empty query exactly when no search argument is given. */
  lemma ListNoFiltersNoQuery(q: ListArgs, flagName: string, flag: Value)
    requires flagName !in SearchNames
    ensures ListParams(q, flagName, flag) == [] <==> NoFilters(q)
  {
    var l, ex := ListLocals(q, flagName, flag), ListExcluded(flagName);
    BuildEmpty(l, ex);
    if NoFilters(q) {
      forall i | 0 <= i < |l|
        ensures !Kept(l[i], ex)
      {
        if i < 9 {
          ListSearchKept(q, flagName, flag, i);
        }
      }
    } else if q.attributeSelect != Null {
      ListSearchKept(q, flagName, flag, 0);
    } else if q.boolFilterList != Null {
      ListSearchKept(q, flagName, flag, 1);
    } else if q.maxSize != Null {
      ListSearchKept(q, flagName, flag, 2);
    } else if q.offset != Null {
      ListSearchKept(q, flagName, flag, 3);
    } else if q.order != Null {
      ListSearchKept(q, flagName, flag, 4);
    } else if q.orderBy != Null {
      ListSearchKept(q, flagName, flag, 5);
    } else if q.primaryFilter != Null {
      ListSearchKept(q, flagName, flag, 6);
    } else if q.textFilter != Null {
      ListSearchKept(q, flagName, flag, 7);
    } else if q.whereGroup != Null {
      ListSearchKept(q, flagName, flag, 8);
    }
  }

  /** A given `where_group` is sent under `whereGroup`: the two locals after
      it are both excluded, so no later assignment overwrites it. */
  lemma ListWhereGroupSent(q: ListArgs, flagName: string, flag: Value)
    requires flagName !in SearchNames && q.whereGroup != Null
    ensures Get(ListParams(q, flagName, flag), WhereGroupKey) == Some(q.whereGroup)
  {
    var l, ex := ListLocals(q, flagName, flag), ListExcluded(flagName);
    ListSearchKept(q, flagName, flag, 8);
    WhereGroupValueAt(l, ex, q.whereGroup);
  }

  /** A kept `where_group` at position 8 of 11 locals, with both later locals
      dropped, is sent as `whereGroup`. */
  lemma WhereGroupValueAt(l: Dict<Value>, ex: set<string>, v: Value)
    requires |l| == 11 && l[8] == ("where_group", v) && Kept(l[8], ex)
    requires !Kept(l[9], ex) && !Kept(l[10], ex)
    ensures Get(BuildSpec(l, ex), WhereGroupKey) == Some(v)
  {
    CamelOfToolKey(l[8].0, WhereGroupKey);
    forall j | 8 < j < |l|
      ensures !Kept(l[j], ex)
    {
      assert j == 9 || j == 10;
    }
    BuildValueAt(l, ex, 8, WhereGroupKey);
  }

  /** Each condition of `where_group` is flattened into its own query
      assignment `whereGroup[i][attribute]`, with the scalar rendered as text;
      a later leaf rendering to the same key would overwrite it. */
  lemma ListWhereGroupFlattened(q: ListArgs, flagName: string, flag: Value,
                                items: seq<Value>, i: nat, entries: Dict<Value>, attr: string, x: Value)
    requires flagName !in SearchNames && q.whereGroup == List(items)
    requires i < |items| && items[i] == Dict(entries)
    requires Get(entries, attr) == Some(x) && IsScalar(x)
    ensures (WhereGroupKey + "[" + NatToDecimal(i) + "][" + attr + "]", PyStr(x))
            in Rendered(Leaves([], Dict(ListParams(q, flagName, flag))))
  {
    ListWhereGroupSent(q, flagName, flag);
    NestedFilterPair(ListParams(q, flagName, flag), WhereGroupKey, items, i, entries, attr, x);
  }
}
