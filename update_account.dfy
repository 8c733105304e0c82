/** `espo_update_account_tool` (tools/espo_update_account.py): preparing and
    making the PATCH that updates one Account. */
module UpdateAccountTool {
  import opened Values
  import opened PyDict
  import opened Names
  import opened Params
  import opened Client
  import opened Tools

  /** The tool's arguments; `accountType` is the `type` argument. */
  datatype Args = Args(
    accountId: string,
    name: Value,
    website: Value,
    emailAddress: Value,
    emailAddressData: Value,
    phoneNumber: Value,
    phoneNumberData: Value,
    accountType: Value,
    industry: Value,
    sicCode: Value,
    billingAddressStreet: Value,
    billingAddressCity: Value,
    billingAddressState: Value,
    billingAddressCountry: Value,
    billingAddressPostalCode: Value,
    shippingAddressStreet: Value,
    shippingAddressCity: Value,
    shippingAddressState: Value,
    shippingAddressCountry: Value,
    shippingAddressPostalCode: Value,
    description: Value,
    campaignId: Value,
    assignedUserId: Value,
    teamsIds: Value,
    targetListsIds: Value,
    targetListId: Value,
    emailAddressIsOptedOut: Value,
    emailAddressIsInvalid: Value,
    phoneNumberIsOptedOut: Value,
    phoneNumberIsInvalid: Value,
    versionNumber: Value,
    customFields: Option<Dict<Value>>)

  /** `locals()` where the parameters are built: the arguments in declaration
      order, then `auth_response`, which is `None` once the access check passed. */
  function Locals(a: Args): Dict<Value> {
    [("account_id", Str(a.accountId)),
     ("name", a.name),
     ("website", a.website),
     ("email_address", a.emailAddress),
     ("email_address_data", a.emailAddressData),
     ("phone_number", a.phoneNumber),
     ("phone_number_data", a.phoneNumberData),
     ("type", a.accountType),
     ("industry", a.industry),
     ("sic_code", a.sicCode),
     ("billing_address_street", a.billingAddressStreet),
     ("billing_address_city", a.billingAddressCity),
     ("billing_address_state", a.billingAddressState),
     ("billing_address_country", a.billingAddressCountry),
     ("billing_address_postal_code", a.billingAddressPostalCode),
     ("shipping_address_street", a.shippingAddressStreet),
     ("shipping_address_city", a.shippingAddressCity),
     ("shipping_address_state", a.shippingAddressState),
     ("shipping_address_country", a.shippingAddressCountry),
     ("shipping_address_postal_code", a.shippingAddressPostalCode),
     ("description", a.description),
     ("campaign_id", a.campaignId),
     ("assigned_user_id", a.assignedUserId),
     ("teams_ids", a.teamsIds),
     ("target_lists_ids", a.targetListsIds),
     ("target_list_id", a.targetListId),
     ("email_address_is_opted_out", a.emailAddressIsOptedOut),
     ("email_address_is_invalid", a.emailAddressIsInvalid),
     ("phone_number_is_opted_out", a.phoneNumberIsOptedOut),
     ("phone_number_is_invalid", a.phoneNumberIsInvalid),
     ("version_number", a.versionNumber),
     ("custom_fields", OptDict(a.customFields)),
     ("auth_response", Null)]
  }

  const Excluded: set<string> := {"account_id", "auth_response"}

  /** The parameters built from the arguments, before the custom fields are merged. */
  function Standard(a: Args): Dict<Value> {
    BuildSpec(Locals(a), Excluded)
  }

  /** The JSON body: the standard parameters, then a non-empty `custom_fields`
      merged over them at the top level. */
  function Body(a: Args): Dict<Value> {
    if Truthy(OptDict(a.customFields)) then Update(Standard(a), a.customFields.value) else Standard(a)
  }

  /** The path of the record being updated. */
  function Action(a: Args): (p: string)
    ensures |p| == 8 + |a.accountId| && p[..8] == "Account/" && p[8..] == a.accountId
  {
    "Account/" + a.accountId
  }

  /** `espo_update_account_tool(...)`: a PATCH with no extra headers. */
  method UpdateAccount(auth: Option<AuthError>, apiAddress: string, apiKey: string, a: Args, send: HttpRequest -> Outcome)
    returns (r: ToolResult)
    ensures r.Refused? <==> auth.Some?
    ensures auth.Some? ==> r.error == auth.value
    ensures r.Called? ==> r.call == ApiCall("PATCH", Some(Action(a)), Body(a), None)
    ensures r.Called? ==> r.request == Prepare(RStrip(apiAddress, '/'), apiKey, [], "PATCH", Some(Action(a)), Body(a),
                                               None, DefaultTimeout, false)
    ensures r.Called? ==> r.envelope == Classify(send(r.request))
  {
    if auth.Some? {
      return Refused(auth.value);
    }
    var params := BuildEspoParams(Locals(a), Excluded);
    if Truthy(OptDict(a.customFields)) {
      params := Update(params, a.customFields.value);
    }
    var client := new EspoApi(apiAddress, apiKey, None);
    var req, env := client.CallApi("PATCH", Some("Account/" + a.accountId), params, None, DefaultTimeout, false, false, send);
    r := Called(ApiCall("PATCH", Some("Account/" + a.accountId), params, None), req, env);
  }

  /** A custom field overrides a standard parameter of the same name: every
      custom key is sent with the custom value. */
  lemma CustomFieldsOverride(a: Args, k: string)
    requires a.customFields.Some? && k in Keys(a.customFields.value)
    ensures Get(Body(a), k) == LastValue(a.customFields.value, k)
  {
    UpdateLookup(Standard(a), a.customFields.value, k);
  }

  /** Any other key is sent exactly as the standard parameters have it. */
  lemma StandardKeysKept(a: Args, k: string)
    requires a.customFields.None? || k !in Keys(a.customFields.value)
    ensures Get(Body(a), k) == Get(Standard(a), k)
  {
    if Truthy(OptDict(a.customFields)) {
      UpdateLookup(Standard(a), a.customFields.value, k);
    }
  }

  /** An empty `custom_fields` merges nothing. */
  lemma EmptyCustomFieldsMergeNothing(a: Args)
    requires a.customFields == Some([])
    ensures Body(a) == Standard(a)
  {
  }

  /** Besides being merged, `custom_fields` is also sent whole under
      `customFields` (even when empty), unless a custom key shadows it. */
  lemma BodyNestsCustomFields(a: Args)
    requires a.customFields.None? || "customFields" !in Keys(a.customFields.value)
    ensures Get(Body(a), "customFields") == if a.customFields.Some? then Some(Dict(a.customFields.value)) else None
  {
    StandardKeysKept(a, "customFields");
    if a.customFields.Some? {
      CustomFieldsRenames(a);
      CustomFieldsIsLastKept(a);
      BuildValueAt(Locals(a), Excluded, 31, "customFields");
      LastArguments(a);
    } else {
      NamesAvoidCustomFields(a);
      LastArguments(a);
      assert !Kept(Locals(a)[31], Excluded);
      BuildKeyAbsentDistinguished(Locals(a), Excluded, "customFields");
    }
  }

  /** The record id travels only in the path: it is never a body key unless a
      custom field puts it there. */
  lemma BodyLeavesOutAccountId(a: Args)
    requires a.customFields.None? || "accountId" !in Keys(a.customFields.value)
    ensures "accountId" !in Keys(Body(a))
  {
    StandardLeavesOut(a);
    StandardKeysKept(a, "accountId");
  }

  /** Neither the record id nor the access check's result is a standard parameter. */
  lemma StandardLeavesOut(a: Args)
    ensures "accountId" !in Keys(Standard(a))
    ensures "authResponse" !in Keys(Standard(a))
  {
    NamesAvoidAccountId(a);
    BuildKeyAbsentDistinguished(Locals(a), Excluded, "accountId");
    NamesAvoidAuthResponse(a);
    BuildKeyAbsentDistinguished(Locals(a), Excluded, "authResponse");
  }

  /** The optimistic-locking version is sent as `versionNumber` when given,
      unless a custom key shadows it. */
  lemma BodySendsVersionNumber(a: Args)
    requires a.versionNumber != Null
    requires a.customFields.None? || "versionNumber" !in Keys(a.customFields.value)
    ensures Get(Body(a), "versionNumber") == Some(a.versionNumber)
  {
    StandardKeysKept(a, "versionNumber");
    StandardVersionNumber(a);
  }

  lemma StandardVersionNumber(a: Args)
    requires a.versionNumber != Null
    ensures Get(Standard(a), "versionNumber") == Some(a.versionNumber)
  {
    VersionIsLastKept(a);
    VersionValueAt(Locals(a), a.versionNumber);
  }

  /** Only custom fields can carry a `None` into the body. */
  lemma BodyHasNoNullOutsideCustomFields(a: Args, k: string)
    requires a.customFields.None? || k !in Keys(a.customFields.value)
    ensures Get(Body(a), k) != Some(Null)
  {
    StandardKeysKept(a, k);
    BuildNoNull(Locals(a), Excluded);
  }

  lemma NamesAvoidAccountId(a: Args)
    ensures forall i :: 0 <= i < |Locals(a)| ==> Locals(a)[i].0 in Excluded || Distinguished(Locals(a)[i].0, "accountId")
  {
  }

  lemma NamesAvoidAuthResponse(a: Args)
    ensures forall i :: 0 <= i < |Locals(a)| ==> Locals(a)[i].0 in Excluded || Distinguished(Locals(a)[i].0, "authResponse")
  {
  }

  lemma NamesAvoidCustomFields(a: Args)
    ensures forall i :: 0 <= i < |Locals(a)| ==> Locals(a)[i].0 in Excluded || Distinguished(Locals(a)[i].0, "customFields") || i == 31
  {
  }

  /** `version_number` and `custom_fields` are the last arguments; only
      `auth_response` follows them. */
  lemma LastArguments(a: Args)
    ensures |Locals(a)| == 33
    ensures Locals(a)[30] == ("version_number", a.versionNumber)
    ensures Locals(a)[31] == ("custom_fields", OptDict(a.customFields))
    ensures Locals(a)[32] == ("auth_response", Null)
  {
  }

  lemma CustomFieldsRenames(a: Args)
    ensures SnakeToCamel(Locals(a)[31].0) == "customFields"
  {
    LastArguments(a);
    CamelOfToolKey(Locals(a)[31].0, "customFields");
  }

  lemma CustomFieldsIsLastKept(a: Args)
    requires a.customFields.Some?
    ensures Kept(Locals(a)[31], Excluded)
    ensures forall j :: 31 < j < |Locals(a)| && Kept(Locals(a)[j], Excluded) ==> Distinguished(Locals(a)[j].0, "customFields")
  {
    LastArguments(a);
  }

  /** No kept argument after `version_number` can rename to `versionNumber`. */
  lemma VersionIsLastKept(a: Args)
    requires a.versionNumber != Null
    ensures |Locals(a)| == 33 && Locals(a)[30] == ("version_number", a.versionNumber)
    ensures forall j :: 30 < j < |Locals(a)| && Kept(Locals(a)[j], Excluded) ==> Distinguished(Locals(a)[j].0, "versionNumber")
  {
    LastArguments(a);
  }

  /** An argument named `version_number` at position 30 with no rival after it
      is sent as `versionNumber`. */
  lemma VersionValueAt(l: Dict<Value>, v: Value)
    requires |l| == 33 && l[30] == ("version_number", v) && v != Null
    requires forall j :: 30 < j < |l| && Kept(l[j], Excluded) ==> Distinguished(l[j].0, "versionNumber")
    ensures Get(BuildSpec(l, Excluded), "versionNumber") == Some(v)
  {
    CamelOfToolKey(l[30].0, "versionNumber");
    BuildValueAt(l, Excluded, 30, "versionNumber");
  }
}
