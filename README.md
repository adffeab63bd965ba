# Response envelope builder

A Dafny model of the response helper `json` in `shared/lib/response.js`. The helper takes an
optional body and an optional status code. It returns a record that an HTTP or serverless
runtime can send as it is:

- `statusCode`: the given status, or 200 when none is given. It is copied through without any range check.
- `headers`: always the single entry `Access-Control-Allow-Origin: *`.
- `body`: a string. It is `""` for an explicit `null`. It is the JSON encoding of `body.stack`
  when that property is truthy. Otherwise it is the JSON encoding of the whole body.

Files and modules:

- `wrappers.dfy` (`Wrappers`): `Option`. `None` stands for an argument or property that is
  `undefined`.
- `js_value.dfy` (`JsValues`): the body values. These are `null`, booleans, integers, strings,
  arrays, and objects as lists of members in property order. The module also has JavaScript
  truthiness and the property access `v.stack`.
- `json_text.dfy` (`JsonText`): the encoder. `JSON.stringify` is a platform library, so the
  envelope takes the encoder as a parameter of type `Encoder = JsValue -> string`.
  `IsJsonEncoder` lists the only facts about it that the envelope's properties use. They are
  used by `OmittedDiffersFromNull`, `EmptyBodyIffNull` and `StringStackQuoted`:
  - JSON text is never empty (RFC 8259, section 2).
  - The empty object encodes as `{}`.
  - A string encodes as a double-quoted literal.
  `Stringify` is a compact reference encoder. It escapes strings as ECMA-262's
  QuoteJSONString does, and it is proved to meet every one of those facts.
- `response.dfy` (`Response`): the envelope and `Json`, with the lemmas about it. Every
  property holds for every encoder. The null-versus-`{}` properties and the quoted-stack property also need `IsJsonEncoder`.
- `response_cases.dfy` (`ResponseCases`): example calls, using `Stringify`.

Argument defaults work as in JavaScript. A default parameter applies only when the argument
is `undefined`, so the `body != null` test only ever sees an explicit `null`. In the model,
`None` means "omitted". `Json(None, …)` is therefore the call with the default `{}`, which is
different from `Json(Some(Null), …)`.

The helper is pure. `Json` is a Dafny function over immutable values, so it cannot change
its argument, and equal arguments give equal envelopes. Each call that omits the body gets
its own empty-object value. No default object is shared between calls.

## Model

The `JsonText` rows cite line 9 because that is where `JSON.stringify` is called. What they
model is that library call on the modelled values (ECMA-262, "JSON.stringify" and its
QuoteJSONString step), not the code of line 9 itself.

| member | source | states |
|---|---|---|
| `Response.Json` | shared/lib/response.js:3-11 | `statusCode` is the given status, or 200 if none is given. `headers` has exactly the key `Access-Control-Allow-Origin`, mapped to `*`. An explicit null gives `""`. An omitted body gives the encoding of the empty object. Any other body gives the encoding of the selected value. |
| `Response.Selected` | shared/lib/response.js:9 | The encoded value is either the body or its `stack`. It is the body exactly when the `stack` test fails, and is truthy when it is not the body. So the two branches exclude each other and together cover every non-null body. |
| `Response.StatusCopied` | shared/lib/response.js:3-5 | An omitted status gives 200. Every integer status, including negative and out-of-range ones, is the result's `statusCode` unchanged. |
| `Response.HeadersFixed` | shared/lib/response.js:6-8 | For every input, the headers are the one-entry map `Access-Control-Allow-Origin ↦ *`. |
| `Response.OmittedBodyIsEmptyObject` | shared/lib/response.js:3 | Omitting the body gives the same envelope as passing `{}`. |
| `Response.OmittedDiffersFromNull` | shared/lib/response.js:3-9 | With a JSON encoder, an omitted body gives `"{}"` and an explicit null gives `""`. |
| `Response.EmptyBodyIffNull` | shared/lib/response.js:9 | With a JSON encoder, the body text is empty if and only if the body is an explicit null. |
| `Response.StackUnwrapped` | shared/lib/response.js:9 | Take an object with unique keys whose `stack` member is truthy. Its body is the encoding of that member alone. |
| `Response.FalsyStackEncodesWhole` | shared/lib/response.js:9 | Take an object with no `stack` member, or a falsy one (`""`, `0`, `false`, `null`). Its body is the encoding of the whole object. |
| `Response.PrimitiveEncodesWhole` | shared/lib/response.js:9 | A boolean, number, string or array body is encoded whole. |
| `Response.StringStackQuoted` | shared/lib/response.js:9 | With a JSON encoder, an object whose unique `stack` member is a non-empty string is sent as `enc` of that string alone, not of the object, and the result is a JSON string literal. |
| `Response.Unwraps` | shared/lib/response.js:9 | The `body.stack ?` test: it passes only for an object that has a `stack` member, and only when that member is truthy. |
| `JsValues.Truthy` | shared/lib/response.js:9 | The falsy values are exactly `null`, `false`, `0` and `""`. |
| `JsValues.Find` | shared/lib/response.js:9 | Returns the position of the first member with the given name, and no earlier member has that name. Returns nothing exactly when no member has the name. |
| `JsValues.Stack` | shared/lib/response.js:9 | `v.stack` is defined exactly when `v` is an object with a member named `stack`. It is `undefined` for null, booleans, numbers, strings and arrays. |
| `JsValues.StackOfObject` | shared/lib/response.js:9 | In an object with unique keys, `v.stack` is the value of its member named `stack`. |
| `JsValues.StackIsProperPart` | shared/lib/response.js:9 | A body's `stack` is never the body itself. |
| `JsonText.Stringify` | shared/lib/response.js:9 | The reference encoding is never empty, and a string encodes as a quoted literal. |
| `JsonText.Quote` | shared/lib/response.js:9 | Every escaped string is a JSON string literal: it starts and ends with a double quote. |
| `JsonText.Decimal` | shared/lib/response.js:9 | An integer's decimal text is never empty. |
| `JsonText.EscapeChar` | shared/lib/response.js:9 | A character that needs no escape is written as itself. Every other character becomes a backslash escape of at least two characters. |
| `JsonText.EscapePlain` | shared/lib/response.js:9 | Text with no quote, backslash or control character is copied unchanged into the literal. |
| `JsonText.QuotePlain` | shared/lib/response.js:9 | Such text encodes as itself between double quotes. |
| `JsonText.StringifyIsJsonEncoder` | shared/lib/response.js:9 | The reference encoder meets every fact that the envelope's properties assume about `JSON.stringify`. |
| `ResponseCases.NoArguments` | shared/lib/response.js:3-11 | `json()` is `{statusCode: 200, headers: {Access-Control-Allow-Origin: *}, body: "{}"}`. |
| `ResponseCases.PlainObject` | shared/lib/response.js:9 | `json({a: 1})` has body `{"a":1}`. |
| `ResponseCases.ErrorObject` | shared/lib/response.js:3-9 | `json({stack: "trace-text"}, 500)` has status 500 and body `"trace-text"`, the stack alone. |
| `ResponseCases.EmptyStack` | shared/lib/response.js:9 | `json({stack: ""})` has body `{"stack":""}`, the whole object. |
| `ResponseCases.ErrorObjectSendsStackText` | shared/lib/response.js:9 | Take an object with unique keys whose `stack` is non-empty plain text `t`. Whatever else it holds, its body is `"t"`. |

## Left out

- Circular structures. `JSON.stringify` throws a TypeError on them, and the error propagates out of `json`. Dafny datatype values cannot be cyclic, so the model has no encoding failure.
- The internals of `JSON.stringify` beyond the reference encoder:
  - `toJSON` hooks;
  - `undefined` results for functions and symbols;
  - the ordering of integer-like keys before other keys;
  - escaping of lone UTF-16 surrogates (Dafny characters are Unicode scalar values, so no lone surrogate can occur);
  - exponent notation for numbers of magnitude 1e21 or more.
- Non-enumerable and inherited properties. A real `Error` object's `stack` is readable but not enumerable. The model's objects have only own, enumerable members, so JSON.stringify of a whole `Error` (`{}`) is not represented.
- Objects with repeated keys. No JavaScript object has two properties of the same name, but the `Obj` datatype does not rule them out. For such a value `Stack` reads the first member named `stack`; the lemmas that need it assume `UniqueKeys`, and repeated keys are outside the model.
- `JsonText.Decimal`: prints every digit of an unbounded integer. JavaScript numbers are doubles, so an integer above 2^53 in magnitude is either not a JavaScript number at all or prints differently: `JSON.stringify(2**60)` keeps the shortest round-trip digits and pads with zeros (`1152921504606847000`), while `Decimal` gives `1152921504606846976`.
- `JsonText.Stringify`: agrees with `JSON.stringify` on numbers only up to 2^53 in magnitude, for the reason given for `Decimal`.
- Numbers are integers. Fractions, `NaN` (falsy) and `-0` are not modelled.
- Dynamic typing of the status argument. Non-integer statuses, and an explicit `null` status (which the default would not replace), are outside the `Option<int>` parameter.
- The runtime that consumes the envelope, module loading (`module.exports`) and strict mode.
