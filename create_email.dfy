/** `create_email_tool` (tools/create_email.py): preparing and making the
    POST that creates an Email. */
module CreateEmailTool {
  import opened Values
  import opened PyDict
  import opened Names
  import opened Params
  import opened Client
  import opened Tools

  /** The tool's arguments; `fromAddress` is the `from_` argument. */
  datatype Args = Args(
    name: Value,
    subject: Value,
    fromString: Value,
    replyToString: Value,
    fromAddress: Value,
    to: Value,
    cc: Value,
    bcc: Value,
    replyTo: Value,
    personStringData: Value,
    emailAddress: Value,
    body: Value,
    isHtml: Value,
    status: Value,
    parentId: Value,
    parentType: Value,
    dateSent: Value,
    sendAt: Value,
    assignedUserId: Value,
    repliedId: Value,
    teamsIds: Value,
    duplicateSourceId: Option<string>,
    skipDuplicateCheck: Option<bool>,
    customFields: Option<Dict<Value>>)

  /** `locals()` where the parameters are built: the arguments in declaration
      order, then `auth_response`, which is `None` once the access check passed. */
  function Locals(a: Args): Dict<Value> {
    [("name", a.name),
     ("subject", a.subject),
     ("from_string", a.fromString),
     ("reply_to_string", a.replyToString),
     ("from_", a.fromAddress),
     ("to", a.to),
     ("cc", a.cc),
     ("bcc", a.bcc),
     ("reply_to", a.replyTo),
     ("person_string_data", a.personStringData),
     ("email_address", a.emailAddress),
     ("body", a.body),
     ("is_html", a.isHtml),
     ("status", a.status),
     ("parent_id", a.parentId),
     ("parent_type", a.parentType),
     ("date_sent", a.dateSent),
     ("send_at", a.sendAt),
     ("assigned_user_id", a.assignedUserId),
     ("replied_id", a.repliedId),
     ("teams_ids", a.teamsIds),
     ("duplicate_source_id", OptStr(a.duplicateSourceId)),
     ("skip_duplicate_check", OptBool(a.skipDuplicateCheck)),
     ("custom_fields", OptDict(a.customFields)),
     ("auth_response", Null)]
  }

  const Excluded: set<string> := {"duplicate_source_id", "skip_duplicate_check", "auth_response"}

  /** The JSON body. */
  function Body(a: Args): Dict<Value> {
    BuildSpec(Locals(a), Excluded)
  }

  /** `create_email_tool(...)`. The explicit `from_` rename is kept as written;
      the contract shows it never changes the body. */
  method CreateEmail(auth: Option<AuthError>, apiAddress: string, apiKey: string, a: Args, send: HttpRequest -> Outcome)
    returns (r: ToolResult)
    ensures r.Refused? <==> auth.Some?
    ensures auth.Some? ==> r.error == auth.value
    ensures r.Called? ==> r.call == ApiCall("POST", Some("Email"), Body(a), DuplicateHeaders(a.duplicateSourceId, a.skipDuplicateCheck))
    ensures r.Called? ==> r.request == Prepare(RStrip(apiAddress, '/'), apiKey, [], "POST", Some("Email"), Body(a),
                                               r.call.extraHeaders, DefaultTimeout, false)
    ensures r.Called? ==> r.envelope == Classify(send(r.request))
  {
    if auth.Some? {
      return Refused(auth.value);
    }
    var params := BuildEspoParams(Locals(a), Excluded);
    ghost var built := params;
    if "from_" in Keys(params) {
      var moved := Get(params, "from_").value;
      params := Set(Remove(params, "from_"), "from", moved);
    }
    if "from_" in Keys(built) {
      BuildNoUnderscore(Locals(a), Excluded, "from_");
      assert false;
    }
    var extraHeaders: Dict<string> := [];
    if Given(a.duplicateSourceId) {
      extraHeaders := Set(extraHeaders, DuplicateSourceHeader, a.duplicateSourceId.value);
    }
    if a.skipDuplicateCheck.Some? {
      extraHeaders := Set(extraHeaders, SkipDuplicateHeader, BoolText(a.skipDuplicateCheck.value));
    }
    var client := new EspoApi(apiAddress, apiKey, None);
    var extra := if extraHeaders != [] then Some(extraHeaders) else None;
    var req, env := client.CallApi("POST", Some("Email"), params, extra, DefaultTimeout, false, false, send);
    r := Called(ApiCall("POST", Some("Email"), params, extra), req, env);
  }

  /** The body never holds the header-only arguments, the access check's
      result, or a `None`. */
  lemma BodyLeavesOutExcluded(a: Args)
    ensures "duplicateSourceId" !in Keys(Body(a))
    ensures "skipDuplicateCheck" !in Keys(Body(a))
    ensures "authResponse" !in Keys(Body(a))
    ensures forall k :: Get(Body(a), k) != Some(Null)
  {
    BuildNoNull(Locals(a), Excluded);
    NamesAvoidSourceId(a);
    BuildKeyAbsentDistinguished(Locals(a), Excluded, "duplicateSourceId");
    NamesAvoidSkipCheck(a);
    BuildKeyAbsentDistinguished(Locals(a), Excluded, "skipDuplicateCheck");
    NamesAvoidAuthResponse(a);
    BuildKeyAbsentDistinguished(Locals(a), Excluded, "authResponse");
  }

  lemma NamesAvoidSourceId(a: Args)
    ensures forall i :: 0 <= i < |Locals(a)| ==> Locals(a)[i].0 in Excluded || Distinguished(Locals(a)[i].0, "duplicateSourceId")
  {
  }

  lemma NamesAvoidSkipCheck(a: Args)
    ensures forall i :: 0 <= i < |Locals(a)| ==> Locals(a)[i].0 in Excluded || Distinguished(Locals(a)[i].0, "skipDuplicateCheck")
  {
  }

  lemma NamesAvoidAuthResponse(a: Args)
    ensures forall i :: 0 <= i < |Locals(a)| ==> Locals(a)[i].0 in Excluded || Distinguished(Locals(a)[i].0, "authResponse")
  {
  }

  /** The `from_` argument is sent under `from`, and no key is ever `from_`. */
  lemma BodyRenamesFrom(a: Args)
    ensures a.fromAddress != Null ==> Get(Body(a), "from") == Some(a.fromAddress)
    ensures "from_" !in Keys(Body(a))
  {
    if "from_" in Keys(Body(a)) {
      BuildNoUnderscore(Locals(a), Excluded, "from_");
      assert false;
    }
    if a.fromAddress != Null {
      FromRenames(a);
      FromIsLastKept(a);
      BuildValueAt(Locals(a), Excluded, 4, "from");
      FromPosition(a);
    }
  }

  lemma FromPosition(a: Args)
    ensures |Locals(a)| == 25 && Locals(a)[4] == ("from_", a.fromAddress)
  {
  }

  lemma FromRenames(a: Args)
    ensures SnakeToCamel(Locals(a)[4].0) == "from"
  {
    FromPosition(a);
    CamelFrom(Locals(a)[4].0);
  }

  /** No argument after `from_` starts with an `f`, so none can rename to `from`. */
  lemma FromIsLastKept(a: Args)
    requires a.fromAddress != Null
    ensures Kept(Locals(a)[4], Excluded)
    ensures forall j :: 4 < j < |Locals(a)| && Kept(Locals(a)[j], Excluded) ==> Distinguished(Locals(a)[j].0, "from")
  {
    FromPosition(a);
  }
}
