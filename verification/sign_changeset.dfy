/** The sign-changeset endpoint: builds the token payload
    `{iss, jti, iat, sub, changes}` from the request body and answers
    `{token}`, where the token is the payload signed with the app's secret.

    Signing is an uninterpreted function `sign(payload, secret)`; the token
    id and the issue time are inputs, as are the configured API key and
    secret (absent when the environment does not define them). A payload
    field whose value is `undefined` is dropped when the payload is
    serialised, so the payload is an object holding only the present
    fields. */
module SignChangeset {
  import opened Wrappers
  import opened Models

  /** `v?.[key]`: the property, or `undefined` (None) when `v` is not an
      object or lacks the key. A property holding `null` is present. */
  function Field(v: Json, key: string): (r: Option<Json>)
    ensures r.Some? <==> v.JObj? && key in v.fields
    ensures r.Some? ==> r.value == v.fields[key]
  {
    if v.JObj? && key in v.fields then Some(v.fields[key]) else None
  }

  /** One more link of an optional chain: `undefined` and `null` stop it. */
  function Then(v: Option<Json>, key: string): (r: Option<Json>)
    ensures v.None? || v == Some(JNull) ==> r.None?
    ensures v.Some? ==> (r.Some? <==> v.value.JObj? && key in v.value.fields)
  {
    match v
    case None => None
    case Some(x) => Field(x, key)
  }

  /** `body?.storage?.initialData?.offer`: the offer the extension cached at
      render time, if the body carries it. */
  function SelectedFunnel(body: Json): (r: Option<Json>)
    ensures r.Some? <==>
              && body.JObj? && "storage" in body.fields
              && body.fields["storage"].JObj? && "initialData" in body.fields["storage"].fields
              && body.fields["storage"].fields["initialData"].JObj?
              && "offer" in body.fields["storage"].fields["initialData"].fields
    ensures r.Some? ==> r.value == body.fields["storage"].fields["initialData"].fields["offer"]
  {
    Then(Then(Then(Some(body), "storage"), "initialData"), "offer")
  }

  /** The claims of a token before serialisation. */
  datatype Payload = Payload(
    iss: Option<string>,
    jti: string,
    iat: int,
    sub: Option<Json>,
    changes: Option<Json>
  )

  function OptionalField(key: string, v: Option<Json>): (r: map<string, Json>)
    ensures r.Keys == if v.Some? then {key} else {}
    ensures v.Some? ==> r[key] == v.value
  {
    if v.Some? then map[key := v.value] else map[]
  }

  /** The payload as the object the signer serialises: absent claims are
      dropped, present ones keep their values. */
  function PayloadJson(p: Payload): (r: Json)
    ensures r.JObj?
    ensures r.fields.Keys == {"jti", "iat"}
                             + (if p.iss.Some? then {"iss"} else {})
                             + (if p.sub.Some? then {"sub"} else {})
                             + (if p.changes.Some? then {"changes"} else {})
    ensures r.fields["jti"] == JStr(p.jti) && r.fields["iat"] == JNum(p.iat as real)
    ensures p.iss.Some? ==> r.fields["iss"] == JStr(p.iss.value)
    ensures p.sub.Some? ==> r.fields["sub"] == p.sub.value
    ensures p.changes.Some? ==> r.fields["changes"] == p.changes.value
  {
    var iss := if p.iss.Some? then Some(JStr(p.iss.value)) else None;
    JObj(OptionalField("iss", iss)
         + map["jti" := JStr(p.jti), "iat" := JNum(p.iat as real)]
         + OptionalField("sub", p.sub)
         + OptionalField("changes", p.changes))
  }

  /** A distinct token id always gives a distinct serialised payload. */
  lemma DistinctJtiDistinctPayloads(p: Payload, q: Payload)
    requires p.jti != q.jti
    ensures PayloadJson(p) != PayloadJson(q)
  {
    assert PayloadJson(p).fields["jti"] != PayloadJson(q).fields["jti"];
  }

  /** Why the endpoint throws instead of answering. */
  datatype SignError =
    | NullBody        // `body.referenceId` on a `null` body
    | MissingSecret   // the signer refuses an undefined or empty secret

  /** The payload the endpoint builds from `body`, or `NullBody`. */
  function BuildPayload(body: Json, apiKey: Option<string>, jti: string, iat: int): (r: Result<Payload, SignError>)
    ensures r.Failure? <==> body == JNull
    ensures r.Success? ==>
              && r.value.iss == apiKey
              && r.value.jti == jti
              && r.value.iat == iat
              && r.value.sub == Field(body, "referenceId")
              && r.value.changes == Then(SelectedFunnel(body), "changes")
  {
    if body == JNull then Failure(NullBody)
    else
      var selected := SelectedFunnel(body);
      Success(Payload(apiKey, jti, iat, Field(body, "referenceId"), Then(selected, "changes")))
  }

  /** The response `{token}`. */
  function TokenResponse(token: string): Json {
    JObj(map["token" := JStr(token)])
  }

  /** The sign-changeset action. */
  function SignAction(
    body: Json, apiKey: Option<string>, secret: Option<string>, jti: string, iat: int,
    sign: (Json, string) -> string
  ): (r: Result<Json, SignError>)
    ensures body == JNull ==> r == Failure(NullBody)
    ensures body != JNull && (secret.None? || secret == Some("")) ==> r == Failure(MissingSecret)
    ensures body != JNull && secret.Some? && secret != Some("") ==>
              r == Success(TokenResponse(sign(PayloadJson(BuildPayload(body, apiKey, jti, iat).value), secret.value)))
  {
    var payload :- BuildPayload(body, apiKey, jti, iat);
    if secret.None? || secret.value == "" then Failure(MissingSecret)
    else Success(TokenResponse(sign(PayloadJson(payload), secret.value)))
  }

  /** The claims the signer receives: at most the five named fields, with
      `sub` present exactly when the body has a `referenceId`, and `changes`
      present exactly when the whole chain
      `body.storage.initialData.offer.changes` exists. */
  lemma SignedClaims(body: Json, apiKey: Option<string>, jti: string, iat: int)
    requires body != JNull
    ensures var claims := PayloadJson(BuildPayload(body, apiKey, jti, iat).value).fields;
            && claims.Keys <= {"iss", "jti", "iat", "sub", "changes"}
            && ("sub" in claims <==> body.JObj? && "referenceId" in body.fields)
            && ("sub" in claims ==> claims["sub"] == body.fields["referenceId"])
            && ("changes" in claims <==>
                  exists offer :: SelectedFunnel(body) == Some(offer) && offer.JObj? && "changes" in offer.fields)
  {
    var p := BuildPayload(body, apiKey, jti, iat).value;
    if "changes" in PayloadJson(p).fields {
      assert SelectedFunnel(body) == Some(SelectedFunnel(body).value);
    }
  }

  /** The body shape `{sub, changes}`, with both at the top level. */
  function TopLevelBody(sub: Json, changes: Json): Json {
    JObj(map["sub" := sub, "changes" := changes])
  }

  /** For a body carrying `sub` and `changes` at the top level, the signed
      payload carries neither: the endpoint looks for `referenceId` and for
      the changes under `storage.initialData.offer`. */
  lemma TopLevelBodyLosesSubAndChanges(sub: Json, changes: Json, apiKey: Option<string>, jti: string, iat: int)
    ensures var p := BuildPayload(TopLevelBody(sub, changes), apiKey, jti, iat);
            && p.Success?
            && p.value.sub.None?
            && p.value.changes.None?
            && "sub" !in PayloadJson(p.value).fields
            && "changes" !in PayloadJson(p.value).fields
  {
    var body := TopLevelBody(sub, changes);
    assert "storage" !in body.fields;
    assert "referenceId" !in body.fields;
  }

  /** The payload as intended for the body the extension posts: `sub` and
      `changes` read from the top level. */
  function BuildPayloadCorrected(body: Json, apiKey: Option<string>, jti: string, iat: int): (r: Result<Payload, SignError>)
    ensures r.Failure? <==> body == JNull
    ensures r.Success? ==>
              && r.value.iss == apiKey
              && r.value.jti == jti
              && r.value.iat == iat
              && r.value.sub == Field(body, "sub")
              && r.value.changes == Field(body, "changes")
  {
    if body == JNull then Failure(NullBody)
    else Success(Payload(apiKey, jti, iat, Field(body, "sub"), Field(body, "changes")))
  }

  /** The sign-changeset action reading the fields the extension sends. */
  function SignActionCorrected(
    body: Json, apiKey: Option<string>, secret: Option<string>, jti: string, iat: int,
    sign: (Json, string) -> string
  ): (r: Result<Json, SignError>)
    ensures body == JNull ==> r == Failure(NullBody)
    ensures body != JNull && (secret.None? || secret == Some("")) ==> r == Failure(MissingSecret)
    ensures body != JNull && secret.Some? && secret != Some("") ==>
              r == Success(TokenResponse(sign(PayloadJson(BuildPayloadCorrected(body, apiKey, jti, iat).value), secret.value)))
  {
    var payload :- BuildPayloadCorrected(body, apiKey, jti, iat);
    if secret.None? || secret.value == "" then Failure(MissingSecret)
    else Success(TokenResponse(sign(PayloadJson(payload), secret.value)))
  }

  /** With the corrected reading, the `{sub, changes}` body is signed with
      exactly the given `sub` and `changes`. */
  lemma CorrectedKeepsSubAndChanges(sub: Json, changes: Json, apiKey: Option<string>, jti: string, iat: int)
    ensures var p := BuildPayloadCorrected(TopLevelBody(sub, changes), apiKey, jti, iat);
            && p.Success?
            && PayloadJson(p.value).fields["sub"] == sub
            && PayloadJson(p.value).fields["changes"] == changes
  {
  }
}
