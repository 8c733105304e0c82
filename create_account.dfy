/** `create_account_tool` (tools/create_account.py): preparing and making the
    POST that creates an Account. */
module CreateAccountTool {
  import opened Values
  import opened PyDict
  import opened Names
  import opened Params
  import opened Client
  import opened Tools

  /** The tool's arguments. Those the tool only forwards are arbitrary Python
      values; those it inspects have their declared types. */
  datatype Args = Args(
    name: Value,
    website: Value,
    description: Value,
    emailAddress: Value,
    emailAddressData: Value,
    emailAddressIsOptedOut: Value,
    emailAddressIsInvalid: Value,
    phoneNumber: Value,
    phoneNumberData: Value,
    phoneNumberIsOptedOut: Value,
    phoneNumberIsInvalid: Value,
    accountType: Value,
    industry: Value,
    sicCode: Value,
    billingAddressStreet: Value,
    billingAddressCity: Value,
    billingAddressState: Value,
    billingAddressCountry: Value,
    billingAddressPostalCode: Value,
    shippingAddressStreet: Value,
    shippingAddressCity: Value,
    shippingAddressState: Value,
    shippingAddressCountry: Value,
    shippingAddressPostalCode: Value,
    campaignId: Value,
    assignedUserId: Value,
    teamsIds: Value,
    targetListsIds: Value,
    targetListId: Value,
    emailAddressIsOptedOutFlag: Value,
    emailAddressIsInvalidFlag: Value,
    phoneNumberIsOptedOutFlag: Value,
    phoneNumberIsInvalidFlag: Value,
    duplicateSourceId: Option<string>,
    skipDuplicateCheck: Option<bool>,
    customFields: Option<Dict<Value>>)

  /** `locals()` where the parameters are built: the arguments in declaration
      order, then `auth_response`, which is `None` once the access check passed. */
  function Locals(a: Args): Dict<Value> {
    [("name", a.name),
     ("website", a.website),
     ("description", a.description),
     ("email_address", a.emailAddress),
     ("email_address_data", a.emailAddressData),
     ("email_address_is_opted_out", a.emailAddressIsOptedOut),
     ("email_address_is_invalid", a.emailAddressIsInvalid),
     ("phone_number", a.phoneNumber),
     ("phone_number_data", a.phoneNumberData),
     ("phone_number_is_opted_out", a.phoneNumberIsOptedOut),
     ("phone_number_is_invalid", a.phoneNumberIsInvalid),
     ("type", a.accountType),
     ("industry", a.industry),
     ("sic_code", a.sicCode),
     ("billing_address_street", a.billingAddressStreet),
     ("billing_address_city", a.billingAddressCity),
     ("billing_address_state", a.billingAddressState),
     ("billing_address_country", a.billingAddressCountry),
     ("billing_address_postal_code", a.billingAddressPostalCode),
     ("shipping_address_street", a.shippingAddressStreet),
     ("shipping_address_city", a.shippingAddressCity),
     ("shipping_address_state", a.shippingAddressState),
     ("shipping_address_country", a.shippingAddressCountry),
     ("shipping_address_postal_code", a.shippingAddressPostalCode),
     ("campaign_id", a.campaignId),
     ("assigned_user_id", a.assignedUserId),
     ("teams_ids", a.teamsIds),
     ("target_lists_ids", a.targetListsIds),
     ("target_list_id", a.targetListId),
     ("email_address_is_opted_out_flag", a.emailAddressIsOptedOutFlag),
     ("email_address_is_invalid_flag", a.emailAddressIsInvalidFlag),
     ("phone_number_is_opted_out_flag", a.phoneNumberIsOptedOutFlag),
     ("phone_number_is_invalid_flag", a.phoneNumberIsInvalidFlag),
     ("duplicate_source_id", OptStr(a.duplicateSourceId)),
     ("skip_duplicate_check", OptBool(a.skipDuplicateCheck)),
     ("custom_fields", OptDict(a.customFields)),
     ("auth_response", Null)]
  }

  /** The header-only arguments and the access check's result stay out of the body. */
  const Excluded: set<string> := {"duplicate_source_id", "skip_duplicate_check", "auth_response"}

  /** The JSON body. */
  function Body(a: Args): Dict<Value> {
    BuildSpec(Locals(a), Excluded)
  }

  /** `create_account_tool(...)`. `auth` is what `check_access` returned;
      `apiAddress` and `apiKey` are the values in the global state. */
  method CreateAccount(auth: Option<AuthError>, apiAddress: string, apiKey: string, a: Args, send: HttpRequest -> Outcome)
    returns (r: ToolResult)
    ensures r.Refused? <==> auth.Some?
    ensures auth.Some? ==> r.error == auth.value
    ensures r.Called? ==> r.call == ApiCall("POST", Some("Account"), Body(a), DuplicateHeaders(a.duplicateSourceId, a.skipDuplicateCheck))
    ensures r.Called? ==> r.request == Prepare(RStrip(apiAddress, '/'), apiKey, [], "POST", Some("Account"), Body(a),
                                               r.call.extraHeaders, DefaultTimeout, false)
    ensures r.Called? ==> r.envelope == Classify(send(r.request))
  {
    if auth.Some? {
      return Refused(auth.value);
    }
    var params := BuildEspoParams(Locals(a), Excluded);
    var extraHeaders: Dict<string> := [];
    if Given(a.duplicateSourceId) {
      extraHeaders := Set(extraHeaders, DuplicateSourceHeader, a.duplicateSourceId.value);
    }
    if a.skipDuplicateCheck.Some? {
      extraHeaders := Set(extraHeaders, SkipDuplicateHeader, BoolText(a.skipDuplicateCheck.value));
    }
    var client := new EspoApi(apiAddress, apiKey, None);
    var extra := if extraHeaders != [] then Some(extraHeaders) else None;
    var req, env := client.CallApi("POST", Some("Account"), params, extra, DefaultTimeout, false, false, send);
    r := Called(ApiCall("POST", Some("Account"), params, extra), req, env);
  }

  /** The body never holds the header-only arguments or the access check's result. */
  lemma BodyLeavesOutExcluded(a: Args)
    ensures "duplicateSourceId" !in Keys(Body(a))
    ensures "skipDuplicateCheck" !in Keys(Body(a))
    ensures "authResponse" !in Keys(Body(a))
  {
    NamesAvoidSourceId(a);
    BuildKeyAbsentDistinguished(Locals(a), Excluded, "duplicateSourceId");
    NamesAvoidSkipCheck(a);
    BuildKeyAbsentDistinguished(Locals(a), Excluded, "skipDuplicateCheck");
    NamesAvoidAuthResponse(a);
    BuildKeyAbsentDistinguished(Locals(a), Excluded, "authResponse");
  }

  // Which declared names could rename to a given key: none but the excluded
  // ones (and, for `customFields`, `custom_fields` at position 35).

  lemma NamesAvoidSourceId(a: Args)
    ensures forall i :: 0 <= i < |Locals(a)| ==> Locals(a)[i].0 in Excluded || Distinguished(Locals(a)[i].0, "duplicateSourceId")
  {
  }

  lemma NamesAvoidSkipCheck(a: Args)
    ensures forall i :: 0 <= i < |Locals(a)| ==> Locals(a)[i].0 in Excluded || Distinguished(Locals(a)[i].0, "skipDuplicateCheck")
  {
  }

  lemma NamesAvoidAuthResponse(a: Args)
    ensures forall i :: 0 <= i < |Locals(a)| ==> Locals(a)[i].0 in Excluded || Distinguished(Locals(a)[i].0, "authResponse")
  {
  }

  lemma NamesAvoidCustomFields(a: Args)
    ensures forall i :: 0 <= i < |Locals(a)| ==> Locals(a)[i].0 in Excluded || Distinguished(Locals(a)[i].0, "customFields") || i == 35
  {
  }

  /** The body never holds a `None`. */
  lemma BodyHasNoNull(a: Args)
    ensures forall k :: Get(Body(a), k) != Some(Null)
  {
    BuildNoNull(Locals(a), Excluded);
  }

  /** `custom_fields` is sent as one nested `customFields` entry, exactly when given. */
  lemma BodyNestsCustomFields(a: Args)
    ensures Get(Body(a), "customFields") == if a.customFields.Some? then Some(Dict(a.customFields.value)) else None
  {
    if a.customFields.Some? {
      CustomFieldsGiven(a);
    } else {
      CustomFieldsAbsent(a);
    }
  }

  lemma CustomFieldsGiven(a: Args)
    requires a.customFields.Some?
    ensures Get(Body(a), "customFields") == Some(Dict(a.customFields.value))
  {
    CustomFieldsRenames(a);
    CustomFieldsIsLastKept(a);
    BuildValueAt(Locals(a), Excluded, 35, "customFields");
    LastArguments(a);
  }

  /** Given `custom_fields` is kept, and no kept argument after it can rename to `customFields`. */
  lemma CustomFieldsIsLastKept(a: Args)
    requires a.customFields.Some?
    ensures Kept(Locals(a)[35], Excluded)
    ensures forall j :: 35 < j < |Locals(a)| && Kept(Locals(a)[j], Excluded) ==> Distinguished(Locals(a)[j].0, "customFields")
  {
    LastArguments(a);
  }

  lemma CustomFieldsRenames(a: Args)
    ensures SnakeToCamel(Locals(a)[35].0) == "customFields"
  {
    LastArguments(a);
    CamelOfToolKey(Locals(a)[35].0, "customFields");
  }

  /** `custom_fields` is the last argument; only `auth_response` follows it. */
  lemma LastArguments(a: Args)
    ensures |Locals(a)| == 37
    ensures Locals(a)[35] == ("custom_fields", OptDict(a.customFields))
    ensures Locals(a)[36] == ("auth_response", Null)
  {
  }

  lemma CustomFieldsAbsent(a: Args)
    requires a.customFields.None?
    ensures "customFields" !in Keys(Body(a))
  {
    var l := Locals(a);
    NamesAvoidCustomFields(a);
    assert !Kept(l[35], Excluded);
    BuildKeyAbsentDistinguished(l, Excluded, "customFields");
  }
}
