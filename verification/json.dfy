/** A decoded JSON document, as both `JSON.parse` on the page and
    `json.loads` in the handler produce it, with the few JavaScript and Python
    operations the two sides apply to such values. */
module Json {
  import opened Results
  import opened Text

  /** Numbers are integers. Objects are keyed by member name and hold no
      order: a repeated name keeps its last value, which both parsers place
      where the name first occurred, but that position is not recorded. */
  datatype Json =
    | JNull
    | JBool(b: bool)
    | JNum(n: int)
    | JStr(s: string)
    | JArr(items: seq<Json>)
    | JObj(fields: map<string, Json>)

  /** JavaScript's property read `doc.key` on a non-null document: the member
      of an object, `undefined` (None) for a missing member or a value that is
      not an object. */
  function Member(doc: Json, key: string): Option<Json> {
    if doc.JObj? && key in doc.fields then Some(doc.fields[key]) else None
  }

  /** JavaScript truthiness of a property value: `undefined`, `null`,
      `false`, `0` and `""` are falsy; every array and object is truthy. */
  predicate JsTruthy(v: Option<Json>) {
    match v
    case None => false
    case Some(JNull) => false
    case Some(JBool(b)) => b
    case Some(JNum(n)) => n != 0
    case Some(JStr(s)) => s != []
    case Some(JArr(_)) => true
    case Some(JObj(_)) => true
  }

  /** Python truthiness (`not x` is false): `None`, `False`, `0`, `''`, `[]`
      and `{}` are falsy. */
  predicate PyTruthy(v: Json) {
    match v
    case JNull => false
    case JBool(b) => b
    case JNum(n) => n != 0
    case JStr(s) => s != []
    case JArr(items) => items != []
    case JObj(fields) => fields != map[]
  }

  /** When JavaScript's ToString throws a TypeError on a decoded value. An
      object with its own `toString` member has no callable `toString` (a JSON
      value is never a function), and `valueOf` returns the object itself, so
      no primitive can be obtained. An array is converted by `join`, which
      converts every element. */
  predicate ToStringThrows(v: Json) {
    match v
    case JObj(fields) => "toString" in fields
    case JArr(items) => exists i :: 0 <= i < |items| && ToStringThrows(items[i])
    case _ => false
  }

  /** JavaScript's ToString, which `new Error(value)` applies to build the
      error message: the text, or None when the conversion throws. */
  function JsToString(v: Json): (r: Option<string>)
    decreases v, 1, 0
    ensures r.None? <==> ToStringThrows(v)
    ensures v.JStr? ==> r == Some(v.s)
    ensures v.JNum? && v.n >= 0 ==> r.Some? && IsDecimal(r.value) && DecimalValue(r.value) == v.n
    ensures v.JNum? && v.n < 0 ==> && r.Some? && |r.value| > 1 && r.value[0] == '-'
                                   && IsDecimal(r.value[1..]) && DecimalValue(r.value[1..]) == -v.n
  {
    match v
    case JNull => Some("null")
    case JBool(b) => Some(if b then "true" else "false")
    case JNum(n) =>
      if n < 0 then
        DecimalRoundTrip(-n);
        assert ("-" + Decimal(-n))[1..] == Decimal(-n);
        Some("-" + Decimal(-n))
      else
        DecimalRoundTrip(n);
        Some(Decimal(n))
    case JStr(s) => Some(s)
    case JArr(items) => JoinElements(items, 0)
    case JObj(fields) => if "toString" in fields then None else Some("[object Object]")
  }

  /** `Array.prototype.join(',')` from index `i` on: elements rendered by
      ToString, with `null` elements rendered as the empty string; None when
      an element's conversion throws. */
  function JoinElements(items: seq<Json>, i: nat): (r: Option<string>)
    requires i <= |items|
    decreases JArr(items), 0, |items| - i
    ensures r.None? <==> exists j :: i <= j < |items| && ToStringThrows(items[j])
  {
    if i == |items| then Some([])
    else
      var text := if items[i].JNull? then Some([]) else JsToString(items[i]);
      if text.None? || i + 1 == |items| then text
      else
        match JoinElements(items, i + 1)
        case None => None
        case Some(rest) => Some(text.value + "," + rest)
  }

  /** Python's type name, as its TypeError and AttributeError messages print
      it. */
  function PyTypeName(v: Json): string {
    match v
    case JNull => "NoneType"
    case JBool(_) => "bool"
    case JNum(_) => "int"
    case JStr(_) => "str"
    case JArr(_) => "list"
    case JObj(_) => "dict"
  }
}
