/** The response-envelope builder `json`: an optional body and an optional
    status code become a record with the status, one cross-origin header and
    a text body. Omitted (or `undefined`) arguments are `None`, which is when
    JavaScript's default parameters apply. */
module Response {
  import opened Wrappers
  import opened JsValues
  import opened JsonText

  /** The name of the one header every envelope carries, with value `*`. */
  const AllowOrigin: string := "Access-Control-Allow-Origin"

  /** The status used when the caller gives none. */
  const DefaultStatus: int := 200

  datatype Envelope = Envelope(statusCode: int, headers: map<string, string>, body: string)

  /** The `stack` test of the body rule: `v.stack` is present and truthy. */
  predicate Unwraps(v: JsValue)
    ensures Unwraps(v) ==> v.Obj? && HasKey(v.members, "stack")
    ensures Unwraps(v) ==> Truthy(Stack(v).value)
  {
    Stack(v).Some? && Truthy(Stack(v).value)
  }

  /** The value that `body.stack ? body.stack : body` hands to the encoder.
      It is either the body or its `stack`, and it is the body itself exactly
      when the `stack` test fails: the two outcomes never coincide. */
  function Selected(v: JsValue): (r: JsValue)
    ensures r == v || Stack(v) == Some(r)
    ensures r == v <==> !Unwraps(v)
    ensures r != v ==> Truthy(r)
  {
    if Unwraps(v) then Stack(v).value else v
  }

  /** `json(body = {}, status = 200)`. The encoder stands for `JSON.stringify`. */
  function Json(body: Option<JsValue>, status: Option<int>, enc: Encoder): (r: Envelope)
    ensures r.statusCode == status.GetOr(DefaultStatus)
    ensures r.headers.Keys == {AllowOrigin} && r.headers[AllowOrigin] == "*"
    ensures body == Some(Null) ==> r.body == ""
    ensures body.None? ==> r.body == enc(Obj([]))
    ensures body.Some? && body.value != Null ==> r.body == enc(Selected(body.value))
  {
    var value := body.GetOr(Obj([]));
    Envelope(
      status.GetOr(DefaultStatus),
      map[AllowOrigin := "*"],
      if value != Null then enc(Selected(value)) else "")
  }

  /** A status is copied through as given, whatever its range: negative codes
      and codes above 599 included. */
  lemma StatusCopied(body: Option<JsValue>, enc: Encoder)
    ensures Json(body, None, enc).statusCode == 200
    ensures forall s :: Json(body, Some(s), enc).statusCode == s
  {
  }

  /** The header record is the same single entry for every call. */
  lemma HeadersFixed(body: Option<JsValue>, status: Option<int>, enc: Encoder)
    ensures |Json(body, status, enc).headers| == 1
    ensures Json(body, status, enc).headers == map["Access-Control-Allow-Origin" := "*"]
  {
  }

  /** Omitting the body is the same as passing a fresh empty object. */
  lemma OmittedBodyIsEmptyObject(status: Option<int>, enc: Encoder)
    ensures Json(None, status, enc) == Json(Some(Obj([])), status, enc)
  {
  }

  /** An omitted body and an explicit `null` give different bodies: `{}` and
      the empty string. */
  lemma OmittedDiffersFromNull(status: Option<int>, enc: Encoder)
    requires IsJsonEncoder(enc)
    ensures Json(None, status, enc).body == "{}"
    ensures Json(Some(Null), status, enc).body == ""
  {
  }

  /** The body text is empty exactly when the body is an explicit `null`. */
  lemma EmptyBodyIffNull(body: Option<JsValue>, status: Option<int>, enc: Encoder)
    requires IsJsonEncoder(enc)
    ensures Json(body, status, enc).body == "" <==> body == Some(Null)
  {
  }

  /** An object whose `stack` member is truthy is sent as the encoding of
      that member alone. */
  lemma StackUnwrapped(ms: seq<Member>, i: nat, status: Option<int>, enc: Encoder)
    requires UniqueKeys(ms)
    requires i < |ms| && ms[i].key == "stack" && Truthy(ms[i].value)
    ensures Json(Some(Obj(ms)), status, enc).body == enc(ms[i].value)
  {
    StackOfObject(ms, i);
  }

  /** An object with no `stack` member, or with a falsy one (`""`, `0`,
      `false`, `null`), is sent as the encoding of the whole object. */
  lemma FalsyStackEncodesWhole(ms: seq<Member>, status: Option<int>, enc: Encoder)
    requires forall i :: 0 <= i < |ms| && ms[i].key == "stack" ==> !Truthy(ms[i].value)
    ensures Json(Some(Obj(ms)), status, enc).body == enc(Obj(ms))
  {
  }

  /** A boolean, number, string or array body has no `stack` property and is
      sent as its own encoding. */
  lemma PrimitiveEncodesWhole(v: JsValue, status: Option<int>, enc: Encoder)
    requires v.Bool? || v.Num? || v.Str? || v.Arr?
    ensures Json(Some(v), status, enc).body == enc(v)
  {
  }

  /** With a JSON encoder, an object whose unique `stack` member is a
      non-empty string is sent as that string alone, as a JSON string
      literal. */
  lemma StringStackQuoted(ms: seq<Member>, i: nat, t: string, status: Option<int>, enc: Encoder)
    requires IsJsonEncoder(enc) && UniqueKeys(ms)
    requires i < |ms| && ms[i] == Member("stack", Str(t)) && t != ""
    ensures IsQuoted(Json(Some(Obj(ms)), status, enc).body)
    ensures Json(Some(Obj(ms)), status, enc).body == enc(Str(t))
  {
    StackUnwrapped(ms, i, status, enc);
  }
}
