/** The parsed form of LitJson's `JsonData`, with the operations of it that the
    persistence engine uses: `IsObject`, `ContainsKey`, the string indexer (get and
    set), `Count` with the integer indexer, and `ToString`. */
module Json {
  import opened Outcomes

  /** A JSON value. An object keeps its members in insertion order, as LitJson does;
      documents read from text never repeat a key. */
  datatype Json =
    | JNull
    | JBool(b: bool)
    | JNumber(n: int)
    | JString(s: string)
    | JArray(items: seq<Json>)
    | JObject(fields: seq<(string, Json)>)

  /** The member names of an object. */
  function Keys(fields: seq<(string, Json)>): set<string>
    decreases |fields|
  {
    if fields == [] then {} else {fields[0].0} + Keys(fields[1..])
  }

  /** The value stored under `key` (`ContainsKey` then the string indexer). */
  function Lookup(fields: seq<(string, Json)>, key: string): (r: Option<Json>)
    ensures r.Some? <==> key in Keys(fields)
    ensures r.Some? ==> (key, r.value) in fields
    decreases |fields|
  {
    if fields == [] then None
    else if fields[0].0 == key then Some(fields[0].1)
    else Lookup(fields[1..], key)
  }

  /** The string indexer's setter: a member already present is replaced where it
      stands, a new one is appended. */
  function Put(fields: seq<(string, Json)>, key: string, value: Json): (r: seq<(string, Json)>)
    ensures Lookup(r, key) == Some(value)
    ensures forall k :: k != key ==> Lookup(r, k) == Lookup(fields, k)
    ensures Keys(r) == Keys(fields) + {key}
    ensures key !in Keys(fields) ==> r == fields + [(key, value)]
    decreases |fields|
  {
    if fields == [] then [(key, value)]
    else if fields[0].0 == key then
      var r := [(key, value)] + fields[1..];
      assert r[1..] == fields[1..];
      r
    else
      var tail := Put(fields[1..], key, value);
      var r := [fields[0]] + tail;
      assert r[1..] == tail;
      r
  }

  /** `ContainsKey`: defined on objects only; LitJson throws for anything else. */
  function ContainsKey(j: Json, key: string): (r: Outcome<bool>)
    ensures r.Returned? <==> j.JObject?
    ensures r.Returned? ==> (r.value <==> key in Keys(j.fields))
  {
    match j
    case JNull => Threw(NullReference)
    case JObject(fields) => Returned(Lookup(fields, key).Some?)
    case _ => Threw(InvalidOperation)
  }

  /** What `Count` and the integer indexer see: the items of an array, or the member
      values of an object in insertion order; other values throw. */
  function Elements(j: Json): (r: Outcome<seq<Json>>)
    ensures r.Returned? <==> j.JArray? || j.JObject?
    ensures j.JArray? ==> r == Returned(j.items)
    ensures j.JObject? ==>
      r.Returned? && |r.value| == |j.fields| && forall i :: 0 <= i < |j.fields| ==> r.value[i] == j.fields[i].1
  {
    match j
    case JNull => Threw(NullReference)
    case JArray(items) => Returned(items)
    case JObject(fields) => Returned(seq(|fields|, i requires 0 <= i < |fields| => fields[i].1))
    case _ => Threw(InvalidOperation)
  }

  /** `JsonData.ToString()`: the text of a string, fixed words for containers, and
      a null reference throws. */
  function ToText(j: Json): (r: Outcome<string>)
    ensures r.Threw? <==> j.JNull?
    ensures j.JString? ==> r == Returned(j.s)
  {
    match j
    case JNull => Threw(NullReference)
    case JBool(b) => Returned(if b then "True" else "False")
    case JNumber(n) => Returned(Decimal(n))
    case JString(s) => Returned(s)
    case JArray(_) => Returned("JsonData array")
    case JObject(_) => Returned("JsonData object")
  }

  /** Decimal digits of a natural number. */
  function Digits(n: nat): string
    decreases n
  {
    var d := ['0', '1', '2', '3', '4', '5', '6', '7', '8', '9'][n % 10];
    if n < 10 then [d] else Digits(n / 10) + [d]
  }

  /** `int.ToString()`, for a current culture that writes negatives with '-'. */
  function Decimal(n: int): string
  {
    if n < 0 then "-" + Digits(-n) else Digits(n)
  }

  /** A nullable C# string as LitJson writes it: null becomes a JSON null. */
  function StringValue(s: Option<string>): (j: Json)
    ensures ToText(j) == (if s.None? then Threw(NullReference) else Returned(s.value))
  {
    match s
    case None => JNull
    case Some(text) => JString(text)
  }
}
