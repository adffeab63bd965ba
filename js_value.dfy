/** The JavaScript values a response body can be: JSON-shaped data, with
    objects written as their own properties in property order. */
module JsValues {
  import opened Wrappers

  datatype JsValue =
    | Null
    | Bool(b: bool)
    | Num(n: int)
    | Str(s: string)
    | Arr(items: seq<JsValue>)
    | Obj(members: seq<Member>)

  /** One own property of an object. */
  datatype Member = Member(key: string, value: JsValue)

  /** JavaScript's ToBoolean on these values: `false`, `0`, `""` and `null`
      are the falsy ones; every array and every object is truthy. */
  predicate Truthy(v: JsValue)
    ensures !Truthy(v) <==> v == Null || v == Bool(false) || v == Num(0) || v == Str("")
  {
    match v
    case Null => false
    case Bool(b) => b
    case Num(n) => n != 0
    case Str(s) => s != ""
    case Arr(_) => true
    case Obj(_) => true
  }

  /** A JavaScript object never has two properties with the same name. */
  predicate UniqueKeys(ms: seq<Member>) {
    forall i, j :: 0 <= i < j < |ms| ==> ms[i].key != ms[j].key
  }

  /** Some member of `ms` is named `k`. */
  predicate HasKey(ms: seq<Member>, k: string) {
    exists i :: 0 <= i < |ms| && ms[i].key == k
  }

  /** The position of the first member named `k`, if there is one. */
  function Find(ms: seq<Member>, k: string): (r: Option<nat>)
    ensures r.Some? ==> r.value < |ms| && ms[r.value].key == k
    ensures r.Some? ==> forall j :: 0 <= j < r.value ==> ms[j].key != k
    ensures r.None? <==> !HasKey(ms, k)
  {
    if |ms| == 0 then None
    else if ms[0].key == k then Some(0)
    else
      match Find(ms[1..], k)
      case None =>
        assert forall j :: 1 <= j < |ms| ==> ms[j] == ms[1..][j - 1];
        None
      case Some(i) => Some(i + 1)
  }

  /** The property access `v.stack`: the `stack` member of an object, and
      `undefined` (None) for `null`, booleans, numbers, strings and arrays,
      none of which carries a `stack` property. */
  function Stack(v: JsValue): (r: Option<JsValue>)
    ensures r.Some? <==> v.Obj? && HasKey(v.members, "stack")
  {
    if !v.Obj? then None
    else
      match Find(v.members, "stack")
      case None => None
      case Some(i) => Some(v.members[i].value)
  }

  /** In an object with unique keys, `v.stack` is the value of the member
      named `stack`, wherever that member stands. */
  lemma StackOfObject(ms: seq<Member>, i: nat)
    requires UniqueKeys(ms)
    requires i < |ms| && ms[i].key == "stack"
    ensures Stack(Obj(ms)) == Some(ms[i].value)
  {
  }

  /** The `stack` of an object is never the object itself: it is the value
      of one of its members, a strictly smaller value. */
  lemma StackIsProperPart(v: JsValue)
    requires Stack(v).Some?
    ensures Stack(v).value != v
  {
  }
}
