/** JavaScript values as they arrive from HTTP bodies: the model of the
    dynamic data the bot endpoint returns and the error values handlers see.
    `JNull` stands for both `null` and `undefined` (JavaScript's nullish values);
    numbers are integers. */
module Json {

  datatype Json =
    | JNull
    | JBool(b: bool)
    | JNum(n: int)
    | JStr(s: string)
    | JArr(items: seq<Json>)
    | JObj(fields: map<string, Json>)

  predicate Nullish(v: Json) {
    v.JNull?
  }

  /** JavaScript truthiness. */
  predicate Truthy(v: Json) {
    match v
    case JNull => false
    case JBool(b) => b
    case JNum(n) => n != 0
    case JStr(s) => s != ""
    case JArr(_) => true
    case JObj(_) => true
  }

  /** Optional property access `v?.k`: a missing property, a property of a
      non-object and a property of a nullish value are all `undefined`. */
  function Prop(v: Json, k: string): (r: Json)
    ensures r != JNull ==> v.JObj? && k in v.fields && r == v.fields[k]
    ensures v.JObj? && k in v.fields ==> r == v.fields[k]
  {
    if v.JObj? && k in v.fields then v.fields[k] else JNull
  }

  /** `a ?? b` */
  function Coalesce(a: Json, b: Json): (r: Json)
    ensures !Nullish(a) ==> r == a
    ensures Nullish(a) ==> r == b
  {
    if Nullish(a) then b else a
  }
}
