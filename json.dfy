/** JSON values as System.Text.Json presents them to the core.

  `Json` is a parsed `JsonElement`. Its accessors return `Err` exactly where
  `JsonElement` throws: asking an element of the wrong kind for a property, a
  string or an array raises InvalidOperationException, and `GetProperty` on an
  absent name raises KeyNotFoundException.

  `Group` is a `Dictionary<string, object>` as the clients use it. A dictionary
  deserialized from JSON holds `JsonElement` values (`Element`). The code can
  also store CLR values into it: a plain string (`ClrString`) or a list of
  dictionaries written to "subGroups" (`ClrList`).
 */
module Json {
  import opened Wrappers

  datatype Json =
    | JNull
    | JBool(b: bool)
    | JNumber(n: int)
    | JString(s: string)
    | JArray(items: seq<Json>)
    | JObject(props: map<string, Json>)

  /** `JsonElement.TryGetProperty(name, out value)`. */
  function TryGetProperty(e: Json, name: string): (r: Result<Option<Json>>)
    ensures r.Err? <==> !e.JObject?
    ensures r.Ok? ==> (r.value.Some? <==> name in e.props)
    ensures r.Ok? && r.value.Some? ==> r.value.value == e.props[name]
  {
    if !e.JObject? then Err(InvalidOperation)
    else if name in e.props then Ok(Some(e.props[name]))
    else Ok(None)
  }

  /** `JsonElement.GetProperty(name)`. */
  function GetProperty(e: Json, name: string): Result<Json> {
    if !e.JObject? then Err(InvalidOperation)
    else if name in e.props then Ok(e.props[name])
    else Err(KeyNotFound)
  }

  /** `JsonElement.GetString()`: a string, null for a JSON null, and an
      exception for every other kind. */
  function GetString(e: Json): Result<Option<string>> {
    match e
    case JString(s) => Ok(Some(s))
    case JNull => Ok(None)
    case _ => Err(InvalidOperation)
  }

  /** `JsonElement.EnumerateArray()`. */
  function EnumerateArray(e: Json): Result<seq<Json>> {
    if e.JArray? then Ok(e.items) else Err(InvalidOperation)
  }

  /** An element that `GetString()` can read: a string or null. */
  predicate IsStringOrNull(e: Json) {
    e.JString? || e.JNull?
  }

  datatype Value =
    | Element(json: Json)
    | ClrString(s: string)
    | ClrList(groups: seq<Group>)

  datatype Group = Group(fields: map<string, Value>)

  /** The dictionary that deserializing a JSON object yields: every value is the
      corresponding `JsonElement`. */
  function ToGroup(props: map<string, Json>): (g: Group)
    ensures g.fields.Keys == props.Keys
    ensures forall k | k in props :: g.fields[k] == Element(props[k])
  {
    Group(map k | k in props :: Element(props[k]))
  }

  /** `JsonSerializer.Deserialize<Dictionary<string, object>>` of one element (and
      `ReadFromJsonAsync` of a response body): an object becomes a dictionary,
      `null` gives null, anything else raises JsonException. The dictionary is
      `ToGroup` of the returned properties. */
  function DeserializeObject(e: Json): (r: Result<Option<map<string, Json>>>)
    ensures r.Err? <==> !(e.JObject? || e.JNull?)
    ensures r == Ok(None) <==> e.JNull?
    ensures r.Ok? && r.value.Some? ==> e == JObject(r.value.value)
  {
    match e
    case JObject(props) => Ok(Some(props))
    case JNull => Ok(None)
    case _ => Err(JsonException)
  }

  /** `group[key] = value`. */
  function SetField(g: Group, key: string, v: Value): (r: Group)
    ensures r.fields.Keys == g.fields.Keys + {key}
    ensures r.fields[key] == v
    ensures forall k | k in g.fields && k != key :: r.fields[k] == g.fields[k]
  {
    Group(g.fields[key := v])
  }

  /** Two dictionaries agree on every key but `key`. */
  predicate SameExcept(a: Group, b: Group, key: string) {
    && a.fields.Keys - {key} == b.fields.Keys - {key}
    && forall k | k in a.fields && k in b.fields && k != key :: a.fields[k] == b.fields[k]
  }
}
