# EspoCRM gateway: request preparation, modelled in Dafny

This project models the part of the EspoCRM tool gateway that turns a tool
call into an HTTP request to the EspoCRM REST API and turns the reply into
the gateway's result envelope:

- `snake_to_camel` and `build_espo_params`, which turn a tool's `locals()`
  into the API's camel-case parameters (modules `Names`, `Params`);
- `http_build_query`, the PHP-style flattening of nested parameters into
  `key[0][attr]=value` pairs (module `Query`), with its recursive walker as a
  class whose `parents` stack and `pairs` dict are updated in place;
- the `EspoAPI` client: `__init__`, `normalize_url`, `call_api`, `request`,
  and `get_client` (module `Client`);
- the request preparation of five tools: `create_account_tool`,
  `create_email_tool`, `espo_update_account_tool`, `espo_list_accounts_tool`
  and `espo_list_users_tool` (modules `CreateAccountTool`, `CreateEmailTool`,
  `UpdateAccountTool`, `ListAccountsTool`, `ListUsersTool`; shared parts in
  `Tools`).

Python values are the datatype `Values.Value` (None, bool, int, str, list,
dict). A Python `dict` is an ordered association list (`PyDict`), so
insertion order, overwriting and `update` keep their Python meaning. The
HTTP library is a function parameter `send` from the prepared request to
its outcome. The access check's result is a parameter `auth`. The API
address and key from the global state are parameters too.

Each tool's `locals()` at the moment the parameters are built is written out
as `Locals(a)`: the declared arguments in declaration order, then
`auth_response`, which is `None` once the access check has passed. The tool
bodies are stated as `BuildSpec(Locals(a), Excluded)`. The lemmas beside
them pin down what the body holds: what is left out, what is renamed to
what, which value wins, and that no `None` is sent.

Where the code and its documentation disagree, the model follows the code:

- `create_account_tool` documents its four `*_flag` arguments as mapping to
  `emailAddressIsOptedOut`, `emailAddressIsInvalid`, `phoneNumberIsOptedOut`
  and `phoneNumberIsInvalid` (tools/create_account.py:170-173). The code
  renames them generically, so they keep their suffix
  (`emailAddressIsOptedOutFlag`, ...). `Names.FlagsKeepSuffix` proves that
  none of them is sent under the documented key.
- `create_email_tool` renames a `from_` key to `from` after building the
  parameters (tools/create_email.py:143-144). `build_espo_params` already
  renames `from_` to `from`, and no built key contains an underscore. So the
  branch never runs. `CreateEmailTool.CreateEmail` keeps the branch as
  written and proves it unreachable.
- `espo_list_accounts_tool` sends `X-No-Total: false` for an explicit
  `False`. `espo_list_users_tool` sends the header only for `True`
  (tools/espo_list_users.py:92). Both behaviours are modelled as written.
- `call_api` reports a 204 reply like any other: its data is the parsed
  body, or the body's text when that is not JSON, which for an empty 204
  body is `""` (`Client.Classify`). Only `request` turns a 204 into `None`
  (utils/espo_helpers.py:102-103, `Client.EspoApi.Request`).
- `espo_update_account_tool` merges `custom_fields` into the top level. The
  argument is also a regular local, so the same dict is sent a second time,
  nested under `customFields` (`UpdateAccountTool.BodyNestsCustomFields`).

## Model

| member | source | states |
|---|---|---|
| `Values.DecimalRoundTrip` | utils/espo_helpers.py:44 | `str(n)` of a natural number reads back as `n`: the decimal digits lose nothing |
| `Values.NatToDecimalInjective` | utils/espo_helpers.py:43-44 | different list indexes always render to different bracket texts |
| `PyDict.Get` | utils/espo_helpers.py:102-105 | `d.get(k)` finds a value exactly when `k` is a key of `d` |
| `PyDict.Set` | utils/espo_helpers.py:31 | after `d[k] = v`, `k` holds `v`, every other key holds what it held, and the keys are the old ones plus `k` |
| `PyDict.SetOrder` | utils/espo_helpers.py:31 | assignment never reorders: a present key keeps its position, a new key is appended last |
| `PyDict.SetNoDup` | utils/espo_helpers.py:31 | assignment keeps every key unique |
| `PyDict.Remove` | tools/create_email.py:144 | `d.pop(k)` removes exactly `k` and leaves every other key's value alone |
| `PyDict.Update` | utils/espo_helpers.py:114-117 | `d.update(e)` has the keys of both, and keys `e` lacks keep `d`'s values |
| `PyDict.UpdateLookup` | utils/espo_helpers.py:114-117 | after `d.update(e)` a key holds the last value `e` gives it, else `d`'s value |
| `PyDict.UpdateOverrides` | tools/espo_update_account.py:159-160 | after `d.update(e)` every key of `e` holds `e`'s value |
| `PyDict.UpdateAppend` | utils/espo_helpers.py:114-117 | updating with `a + b` is updating with `a`, then with `b` |
| `PyDict.UpdateNoDup` | utils/espo_helpers.py:20-31 | a dict built by assignments from `{}` has no repeated key |
| `PyDict.LastValueAppend` | utils/espo_helpers.py:22-31 | the last assignment to a key in `a + b` is `b`'s when `b` has one, else `a`'s |
| `PyDict.LastValueAt` | utils/espo_helpers.py:22-31 | an assignment that no later one overwrites is the one that stays |
| `Names.Split` | utils/espo_helpers.py:12 | `name.split("_")`: at least one part, and no part contains the separator |
| `Names.Join` | utils/espo_helpers.py:12 | joining parts with one separator between neighbours, the inverse of `Split` (`Names.JoinSplit`) |
| `Names.JoinSplit` | utils/espo_helpers.py:12 | `"_".join(s.split("_")) == s`: splitting loses nothing |
| `Names.Capitalize` | utils/espo_helpers.py:13 | `word.capitalize()`: the first character upper-cased, the others lower-cased, the length kept |
| `Names.CapitalizeAll` | utils/espo_helpers.py:13 | `"".join(word.capitalize() for word in parts)`: the capitalized words concatenated in order |
| `Names.SnakeToCamel` | utils/espo_helpers.py:11-13 | `snake_to_camel`: the first part unchanged, then every later part capitalized; what the renaming means is proved beside it (`Names.SnakeToCamelCharwise`, `Names.CamelHasNoUnderscore`, `Names.SnakeToCamelInverse`) |
| `Names.CapitalizeLowerWord` | utils/espo_helpers.py:13 | `capitalize` of a lower-case word upper-cases its first letter and keeps the rest |
| `Names.SnakeToCamelCharwise` | utils/espo_helpers.py:11-13 | the split-and-join renaming equals an independent one-character-at-a-time definition |
| `Names.CamelHasNoUnderscore` | utils/espo_helpers.py:11-13 | a renamed key never contains `_` |
| `Names.CamelOfPlainWord` | utils/espo_helpers.py:11-13 | a name without `_` is kept unchanged |
| `Names.CamelDropsTrailingUnderscore` | utils/espo_helpers.py:11-13 | a trailing `_` contributes nothing (`from_` renames like `from`) |
| `Names.SnakeToCamelInverse` | utils/espo_helpers.py:11-13 | on plain snake-case names the renaming is undone by `CamelToSnake` |
| `Names.SnakeToCamelInjective` | utils/espo_helpers.py:11-13 | distinct plain snake-case names never rename to the same key |
| `Names.CamelKeepsLead` | utils/espo_helpers.py:11-13 | the first two characters survive when neither is `_` |
| `Names.DistinguishedRenames` | utils/espo_helpers.py:11-13 | a name differing from a key in one of its two leading non-`_` characters never renames to that key |
| `Names.CamelKeepsLast` | utils/espo_helpers.py:11-13 | a lower-case last letter that follows a non-`_` is the renamed key's last character |
| `Names.CamelOfTwoWords` | utils/espo_helpers.py:11-13 | `a_b` renames to `a` followed by `b` capitalized |
| `Names.CamelOfThreeWords` | utils/espo_helpers.py:11-13 | `a_b_c` renames to `a`, then `b` and `c` capitalized |
| `Names.CamelReplyToString` | tools/create_email.py:22 | `reply_to_string` renames to `replyToString` |
| `Names.CamelFrom` | tools/create_email.py:25 | `from_` renames to `from` |
| `Names.CamelOfTwoWordsAs` | utils/espo_helpers.py:11-13 | a two-word name `a_b` renames to `a` followed by `b` capitalized, with the pieces named by the caller |
| `Names.CamelOfToolKey` | utils/espo_helpers.py:11-13 | `custom_fields`, `version_number` and `where_group` rename to `customFields`, `versionNumber` and `whereGroup`, the keys the tools' documentation names |
| `Names.FlagsKeepSuffix` | tools/create_account.py:99-110 | no `*_flag` argument renames to the attribute key its description names |
| `Params.Kept` | utils/espo_helpers.py:23-27 | a local variable becomes a parameter exactly when it is not excluded, not `None` and not `self` or `kwargs` |
| `Params.Renamed` | utils/espo_helpers.py:22-31 | the loop's assignments in order, one `(snake_to_camel(key), value)` per kept local, so never more than there are locals |
| `Params.BuildSpec` | utils/espo_helpers.py:15-33 | the parameters: those assignments performed on `{}`; the `Params.Build*` lemmas state what that dict holds |
| `Params.BuildEspoParams` | utils/espo_helpers.py:15-33 | the loop produces the assignments of the kept locals, renamed, performed in order on `{}` |
| `Params.RenamedOrigin` | utils/espo_helpers.py:22-31 | every assignment comes from a kept local variable, carrying its value under its renamed name |
| `Params.RenamedCovers` | utils/espo_helpers.py:22-31 | every kept local variable is assigned under its renamed name |
| `Params.BuildKeys` | utils/espo_helpers.py:22-33 | a parameter key exists exactly when some kept local variable renames to it |
| `Params.BuildEmpty` | utils/espo_helpers.py:22-33 | there are no parameters exactly when no local variable is kept |
| `Params.BuildIgnoresDropped` | utils/espo_helpers.py:23-27 | excluded, `None` and reserved (`self`, `kwargs`) locals do not influence the result |
| `Params.BuildLastWins` | utils/espo_helpers.py:30-31 | when two locals rename to the same key, the later one's value is sent |
| `Params.BuildValueAt` | utils/espo_helpers.py:30-31 | a kept local is sent under its renamed key with its value when every later kept local is `Distinguished` from that key (differs from it in the first or second non-`_` character) |
| `Params.BuildNoNull` | utils/espo_helpers.py:23-24 | no parameter is `None` |
| `Params.BuildNoUnderscore` | utils/espo_helpers.py:30 | no parameter key contains `_` |
| `Params.BuildNoDup` | utils/espo_helpers.py:20-33 | the parameters have no repeated key |
| `Params.BuildKeyAbsent` | utils/espo_helpers.py:23-31 | a key that no kept local renames to is absent |
| `Params.BuildKeyAbsentDistinguished` | utils/espo_helpers.py:23-31 | a key from which every kept local's name is `Distinguished` is absent |
| `Params.RenamedAppend` | utils/espo_helpers.py:22 | iterating over `a + b` assigns `a`'s entries, then `b`'s |
| `Query.RenderKey` | utils/espo_helpers.py:40-46 | the key of a path: the first segment bare when it is a dict key and bracketed when it is an index, every later segment bracketed |
| `Query.RenderKeyLoop` | utils/espo_helpers.py:40-46 | `renderKey` writes the first segment bare when it is a dict key and bracketed when it is an index, every later segment bracketed |
| `Query.RenderKeySnoc` | utils/espo_helpers.py:43-45 | one more path segment appends its text, bracketed unless it is a key at depth 0 |
| `Query.Leaves` | utils/espo_helpers.py:48-62 | the scalars below a value in `r_urlencode`'s visiting order: list items by index, dict entries in insertion order, each with its path and `str()` |
| `Query.Rendered` | utils/espo_helpers.py:60 | one `(renderKey(path), str(scalar))` assignment per leaf, in visiting order |
| `Query.RenderedAppend` | utils/espo_helpers.py:49-58 | the assignments of consecutive subtrees concatenate |
| `Query.QueryBuilder.constructor` | utils/espo_helpers.py:37-38 | the walk starts with an empty path and no pairs |
| `Query.QueryBuilder.Walk` | utils/espo_helpers.py:48-62 | `r_urlencode` restores the path stack and performs the assignments of every leaf below it, in order |
| `Query.QueryBuilder.Descend` | utils/espo_helpers.py:51-53 | push, recursive walk and pop leave the stack as it was and add the child's assignments |
| `Query.HttpBuildQuery` | utils/espo_helpers.py:36-64 | the pairs of `http_build_query` are the leaves' assignments performed on `{}` |
| `Query.QueryPairs` | utils/espo_helpers.py:48-62 | the leaves' assignments performed in visiting order on `{}`: of two leaves with the same key the later value stays, at the earlier position |
| `Query.ListLeavesMember` | utils/espo_helpers.py:49-53 | the leaves of a list are exactly those of its items, each below its index |
| `Query.DictLeavesMember` | utils/espo_helpers.py:54-58 | the leaves of a dict are exactly those of its values, each below its key |
| `Query.LeavesComplete` | utils/espo_helpers.py:48-62 | every scalar reachable in the value is a leaf, with its `str()` |
| `Query.LeavesSound` | utils/espo_helpers.py:48-62 | every leaf lies on a path leading to a scalar, and carries that scalar's `str()` |
| `Query.QueryKeys` | utils/espo_helpers.py:60 | a query key exists exactly when some leaf renders to it |
| `Query.QueryLastWins` | utils/espo_helpers.py:60 | the value sent under a key is that of the last leaf rendering to it |
| `Query.QueryKeyCollision` | utils/espo_helpers.py:40-46 | a dict key containing brackets collides with a nested path, and only the later pair is sent |
| `Query.NestedFilterPair` | utils/espo_helpers.py:40-62 | attribute `attr` of list item `i` under `name` is assigned as `name[i][attr]` with its `str()`; a later leaf rendering to the same key would overwrite it (`Query.QueryLastWins`, `Query.QueryKeyCollision`) |
| `Query.NestedFilterKey` | utils/espo_helpers.py:40-46 | the path `name`, `i`, `attr` renders as `name[i][attr]` |
| `Client.RStrip` | utils/espo_helpers.py:69 | `rstrip('/')` removes exactly the trailing run of `/` |
| `Client.LStrip` | utils/espo_helpers.py:83 | `lstrip('/')` removes exactly the leading run of `/` |
| `Client.NormalizeUrl` | utils/espo_helpers.py:73-83 | no action gives the base URL, and an absolute `http://`/`https://` action is used as it is |
| `Client.NormalizeUrlRelative` | utils/espo_helpers.py:83 | a relative action is joined to the base with one `/`, and only slashes at the junction are dropped |
| `Client.NormalizeUrlSlashes` | utils/espo_helpers.py:69-83 | any number of slashes on either side of the junction gives the same URL |
| `Client.UpperAll` | utils/espo_helpers.py:123 | `method.upper()` upper-cases every character |
| `Client.SendsBody` | utils/espo_helpers.py:123 | the upper-cased method is `POST`, `PATCH` or `PUT` |
| `Client.MergeHeaders` | utils/espo_helpers.py:113-119 | the defaults, overlaid by non-empty extra headers, then `X-Api-Key` set to the client's key |
| `Client.MergeHeadersLookup` | utils/espo_helpers.py:113-119 | `X-Api-Key` always holds the client's key; any other header holds the extra headers' value, else the defaults' value |
| `Client.Prepare` | utils/espo_helpers.py:112-129 | the request `call_api` hands to the HTTP library: the resolved URL, the merged headers, and the parameters as JSON body or as query by method |
| `Client.PrepareBodyOrQuery` | utils/espo_helpers.py:121-129 | POST/PATCH/PUT not forced to the query send non-empty parameters as JSON and no query; everything else sends no body and the flattened parameters as the query |
| `Client.Classify` | utils/espo_helpers.py:131-172 | a transport failure gives no status, no data, the error text and type `network`; a response is ok iff 2xx, and otherwise carries `HTTP <status>` and type `api`; data is the JSON body or the text |
| `Client.EspoApi.constructor` | utils/espo_helpers.py:68-71 | the base URL loses its trailing slashes, the key is stored, and missing default headers become `{}` |
| `Client.EspoApi.CallApi` | utils/espo_helpers.py:107-172 | the request sent is the prepared one, and the result is the classification of its outcome |
| `Client.EspoApi.Request` | utils/espo_helpers.py:85-105 | the data of the reply, `None` for a 204 or a transport failure, with `None` parameters sent as `{}` |
| `Client.GetClient` | utils/espo_helpers.py:182-189 | a client exists exactly when both URL and key are non-empty, and it holds them |
| `Tools.BoolText` | tools/create_account.py:211-213 | `"true"` exactly for `True`, `"false"` exactly for `False` |
| `Tools.DuplicateHeaders` | tools/create_account.py:207-213 | the source id is sent when non-empty, the skip flag whenever not `None`, nothing else, and no dict at all when empty |
| `Tools.DuplicateHeadersSent` | tools/create_account.py:207-225 | the duplicate headers reach the request as given, next to the API key |
| `Tools.GetSendsQuery` | utils/espo_helpers.py:113-129 | a GET carries no body, its parameters as the query, the API key, and each extra header's value |
| `Tools.ListLocals` | tools/espo_list_accounts.py:12-54 | `locals()` of a list tool: the nine search arguments in declaration order, then its header flag, then `auth_response`, which is `None` once the access check passed (the same in tools/espo_list_users.py:12-50) |
| `Tools.ListExcluded` | tools/espo_list_accounts.py:96 | the exclude set of a list tool: its header flag and `auth_response` |
| `Tools.ListParams` | tools/espo_list_accounts.py:96 | the query parameters: `build_espo_params` of the locals without the exclude set |
| `Tools.ListSearchKept` | tools/espo_list_accounts.py:96 | a search argument becomes a parameter exactly when it is not `None` |
| `Tools.ListParamsHaveNoNull` | tools/espo_list_accounts.py:96 | no query parameter is `None` |
| `Tools.ListParamsLeaveOut` | tools/espo_list_accounts.py:96 | a key that no search argument's name renames to is not a query parameter, whatever the flag |
| `Tools.SearchNamesRenameAway` | utils/espo_helpers.py:11-13 | a key from which every search argument's name is `Distinguished` is one that none of them renames to |
| `Tools.ListParamsLeaveOutAuthResponse` | tools/espo_list_accounts.py:96 | `authResponse` is never a query parameter |
| `Tools.ListNoFiltersNoQuery` | tools/espo_list_accounts.py:96 | the parameters are empty exactly when no search argument is given |
| `Tools.ListWhereGroupSent` | tools/espo_list_accounts.py:96 | a given `where_group` is a parameter under `whereGroup` |
| `Tools.ListWhereGroupFlattened` | tools/espo_list_accounts.py:96-112 | each condition attribute of `where_group` is assigned as its own `whereGroup[i][attr]` pair; a later leaf rendering to the same key would overwrite it |
| `CreateAccountTool.Locals` | tools/create_account.py:12-127 | `locals()` at the build: the declared arguments in order, then `auth_response`, which is `None` once the access check passed; `Excluded` is the exclude set of line 203 |
| `CreateAccountTool.Body` | tools/create_account.py:201-204 | the JSON body: `build_espo_params` of the locals without the excluded names |
| `CreateAccountTool.CreateAccount` | tools/create_account.py:196-225 | refused exactly when the access check fails; otherwise one POST to `Account` with the built body and the duplicate headers, and the envelope of its outcome |
| `CreateAccountTool.BodyLeavesOutExcluded` | tools/create_account.py:200-204 | the body has no `duplicateSourceId`, `skipDuplicateCheck` or `authResponse` |
| `CreateAccountTool.BodyHasNoNull` | tools/create_account.py:201-204 | no body value is `None` |
| `CreateAccountTool.BodyNestsCustomFields` | tools/create_account.py:201-204 | `customFields` holds the custom fields dict exactly when it is given |
| `CreateAccountTool.CustomFieldsGiven` | tools/create_account.py:123-126 | a given `custom_fields` is sent whole under `customFields` |
| `CreateAccountTool.CustomFieldsAbsent` | tools/create_account.py:201-204 | without `custom_fields` no `customFields` key is sent |
| `CreateEmailTool.Locals` | tools/create_email.py:12-91 | `locals()` at the build: the declared arguments in order, then `auth_response`, which is `None` once the access check passed; `Excluded` is the exclude set of line 140 |
| `CreateEmailTool.Body` | tools/create_email.py:138-141 | the JSON body before the `from_` branch: `build_espo_params` of the locals without the excluded names |
| `CreateEmailTool.CreateEmail` | tools/create_email.py:133-164 | refused exactly when the access check fails; otherwise one POST to `Email` with the built body, which the `from_` branch leaves unchanged, and the duplicate headers |
| `CreateEmailTool.BodyLeavesOutExcluded` | tools/create_email.py:137-141 | the body has no `duplicateSourceId`, `skipDuplicateCheck` or `authResponse`, and no value is `None` |
| `CreateEmailTool.BodyRenamesFrom` | tools/create_email.py:137-144 | a given `from_` is sent under `from`, and no key is ever `from_` |
| `UpdateAccountTool.Locals` | tools/espo_update_account.py:12-107 | `locals()` at the build: the declared arguments in order, `account_id` first, then `auth_response`, which is `None` once the access check passed; `Excluded` is the exclude set of line 157 |
| `UpdateAccountTool.Standard` | tools/espo_update_account.py:157 | the parameters `build_espo_params` makes of the locals without `account_id` and `auth_response` |
| `UpdateAccountTool.Body` | tools/espo_update_account.py:157-160 | the standard parameters, with a non-empty `custom_fields` merged over them at the top level |
| `UpdateAccountTool.Action` | tools/espo_update_account.py:167 | the action is `Account/` followed by the record id |
| `UpdateAccountTool.UpdateAccount` | tools/espo_update_account.py:152-167 | refused exactly when the access check fails; otherwise one PATCH to `Account/<id>` with no extra headers, and the envelope of its outcome |
| `UpdateAccountTool.CustomFieldsOverride` | tools/espo_update_account.py:159-160 | every custom key is sent with the custom value, overriding a standard field of the same name |
| `UpdateAccountTool.StandardKeysKept` | tools/espo_update_account.py:157-160 | every other key is sent as the standard parameters have it |
| `UpdateAccountTool.EmptyCustomFieldsMergeNothing` | tools/espo_update_account.py:159 | an empty custom fields dict merges nothing |
| `UpdateAccountTool.BodyNestsCustomFields` | tools/espo_update_account.py:157-160 | the custom fields are also sent whole under `customFields`, unless a custom key shadows it |
| `UpdateAccountTool.StandardLeavesOut` | tools/espo_update_account.py:157 | neither `accountId` nor `authResponse` is a standard parameter |
| `UpdateAccountTool.BodyLeavesOutAccountId` | tools/espo_update_account.py:157-160 | the record id travels only in the path unless a custom key puts it in the body |
| `UpdateAccountTool.BodySendsVersionNumber` | tools/espo_update_account.py:157-160 | a given `version_number` is sent as `versionNumber` unless a custom key shadows it |
| `UpdateAccountTool.StandardVersionNumber` | tools/espo_update_account.py:157 | a given `version_number` is a standard parameter under `versionNumber` |
| `UpdateAccountTool.BodyHasNoNullOutsideCustomFields` | tools/espo_update_account.py:157-160 | only custom fields can carry a `None` into the body |
| `ListAccountsTool.Locals` | tools/espo_list_accounts.py:12-54 | `locals()` at the build: the search arguments, then `no_total` and `auth_response` |
| `ListAccountsTool.QueryParams` | tools/espo_list_accounts.py:96 | the search parameters sent as the query string |
| `ListAccountsTool.NoTotalHeaders` | tools/espo_list_accounts.py:99-101 | `X-No-Total` is sent exactly when `no_total` is not `None`, as `"true"`/`"false"` |
| `ListAccountsTool.ListAccounts` | tools/espo_list_accounts.py:91-112 | refused exactly when the access check fails; otherwise one GET to `Account` with the built parameters and the optional header |
| `ListAccountsTool.RequestIsQuery` | tools/espo_list_accounts.py:96-112 | the request has no body, the flattened parameters as query, the API key and the `X-No-Total` value, and `noTotal` is not a query key |
| `ListUsersTool.Locals` | tools/espo_list_users.py:12-50 | `locals()` at the build: the search arguments, then `x_no_total` and `auth_response` |
| `ListUsersTool.QueryParams` | tools/espo_list_users.py:85 | the search parameters sent as the query string |
| `ListUsersTool.UserHeaders` | tools/espo_list_users.py:92 | `X-No-Total: true` is sent exactly when `x_no_total` is `True` |
| `ListUsersTool.ListUsers` | tools/espo_list_users.py:80-95 | refused exactly when the access check fails; otherwise one GET to `User` with the built parameters and the optional header |
| `ListUsersTool.RequestIsQuery` | tools/espo_list_users.py:85-95 | the request has no body, the flattened parameters as query, the API key and the `X-No-Total` value, and `xNoTotal` is not a query key |

## Left out

- The network: `requests.request` is the parameter `send`, and its exceptions are the outcome `TransportFailure`.
- `urllib.parse.urlencode` and percent-encoding: the query is kept as the ordered pair list it encodes. The URL gets a `?` exactly when that list is non-empty.
- Logging (`logger.*`), including the status-dependent warning that `allow_non_2xx` selects: it does not affect any result.
- `check_access` and the middleware behind it: their result is the parameter `auth`.
- `global_state`: the API address and key are parameters. A missing (`None`) address, on which `EspoAPI.__init__` would raise, is not modelled.
- Timeouts, and the clock: the timeout is only passed through.
- Floats, and dict keys other than strings: `http_build_query` brackets an integer dict key even at depth 0, but `Value` has string keys only.
- Header names are case-sensitive in the model; `requests` treats them case-insensitively.
- `str.capitalize`, `str.upper` and `str.lower` use ASCII case mapping only.
- `EspoAPI.build_params` and the module-level `call_api`: thin wrappers that delegate unchanged.
- The `if result is None` branch of `request`: `call_api` always returns a dict, so the branch is dead.
- The other tools of the repository are not part of this model.
- `CreateAccountTool.CreateAccount`, `CreateEmailTool.CreateEmail`, `UpdateAccountTool.UpdateAccount`, `ListAccountsTool.ListAccounts`, `ListUsersTool.ListUsers`: the body is stated as `build_espo_params` on the tool's locals. That no two declared arguments rename to the same key is proved only for the keys the lemmas name, not for all pairs of arguments.
- `Names.FlagsKeepSuffix`: proves only that the `*_flag` keys differ from the documented ones (they end in `g`), not their full spelling `emailAddressIsOptedOutFlag`.
