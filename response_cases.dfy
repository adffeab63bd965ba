/** The envelope builder with the reference encoder `Stringify`: example
    calls, and the error-object case in general. */
module ResponseCases {
  import opened Wrappers
  import opened JsValues
  import opened JsonText
  import opened Response

  /** `json()` */
  lemma NoArguments()
    ensures Json(None, None, Stringify) == Envelope(200, map[AllowOrigin := "*"], "{}")
  {
  }

  /** `json({a: 1})` */
  lemma PlainObject()
    ensures Json(Some(Obj([Member("a", Num(1))])), None, Stringify).body == "{\"a\":1}"
  {
    EscapePlain("a");
  }

  /** `json({stack: "trace-text"}, 500)`: status 500, and the body is the
      stack text as a JSON string. The text is a parameter fixed by the
      requires, not a literal in the ensures, so the solver does not unfold
      `Stringify` on it character by character. */
  lemma ErrorObject(t: string)
    requires t == "trace-text"
    ensures Json(Some(Obj([Member("stack", Str(t))])), Some(500), Stringify).statusCode == 500
    ensures Json(Some(Obj([Member("stack", Str(t))])), Some(500), Stringify).body
         == "\"trace-text\""
  {
    assert forall k :: 0 <= k < |t| ==> Plain(t[k]);
    ErrorObjectSendsStackText([Member("stack", Str(t))], 0, t, Some(500));
  }

  /** `json({stack: ""})`: an empty stack does not unwrap, and the whole
      object is sent. The key is a parameter for the same reason as the text
      in `ErrorObject`. */
  lemma EmptyStack(k: string)
    requires k == "stack"
    ensures Json(Some(Obj([Member(k, Str(""))])), None, Stringify).body == "{\"stack\":\"\"}"
  {
    var ms := [Member(k, Str(""))];
    FalsyStackEncodesWhole(ms, None, Stringify);
    assert forall j :: 0 <= j < |k| ==> Plain(k[j]);
    QuotePlain(k);
    QuotePlain("");
    assert StringifyMembers(ms) == Quote(k) + ":" + Quote("");
  }

  /** An error-like object whose stack is non-empty ordinary text, whatever
      else it holds, is sent as that text in quotes and nothing more. */
  lemma ErrorObjectSendsStackText(ms: seq<Member>, i: nat, t: string, status: Option<int>)
    requires UniqueKeys(ms)
    requires i < |ms| && ms[i] == Member("stack", Str(t)) && t != ""
    requires forall k :: 0 <= k < |t| ==> Plain(t[k])
    ensures Json(Some(Obj(ms)), status, Stringify).body == "\"" + t + "\""
  {
    StackUnwrapped(ms, i, status, Stringify);
    QuotePlain(t);
  }
}
