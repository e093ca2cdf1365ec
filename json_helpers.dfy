/** KeycloakJsonHelpers.TryGetString, the value-kind test every client applies
  to a `Dictionary<string, object>` entry before it trusts it as a string. The
  private copy inside KeycloakGroupClient behaves identically, and the model
  uses this one definition for both.
 */
module KeycloakJsonHelpers {
  import opened Wrappers
  import opened Json

  /** The entry holds a string: a JSON string element or a CLR string. */
  predicate HoldsString(v: Value) {
    v.ClrString? || (v.Element? && v.json.JString?)
  }

  function StringOf(v: Value): string
    requires HoldsString(v)
  {
    if v.ClrString? then v.s else v.json.s
  }

  /** `TryGetString(dict, key, out result)`: the pair (returned flag, out value). */
  function TryGetString(g: Group, key: string): (r: (bool, string))
    ensures r.0 <==> key in g.fields && HoldsString(g.fields[key])
    ensures r.0 ==> r.1 == StringOf(g.fields[key])
    ensures !r.0 ==> r.1 == ""
  {
    if key !in g.fields then (false, "")
    else
      match g.fields[key]
      case Element(JString(s)) => (true, s)
      case ClrString(s) => (true, s)
      case _ => (false, "")
  }

  /** What a deserialized dictionary yields: exactly the JSON strings, and "" for
      every other kind of element (numbers, objects, arrays, null, booleans). */
  lemma TryGetStringOfJson(props: map<string, Json>, key: string)
    ensures TryGetString(ToGroup(props), key).0 <==> key in props && props[key].JString?
    ensures key in props && props[key].JString? ==> TryGetString(ToGroup(props), key).1 == props[key].s
  {
  }

  /** Reading back a string just stored under a key returns it unchanged,
      whether it was stored as a CLR string or as a JSON string element. */
  lemma {:induction false} TryGetStringAfterSet(g: Group, key: string, s: string)
    ensures TryGetString(SetField(g, key, ClrString(s)), key) == (true, s)
    ensures TryGetString(SetField(g, key, Element(JString(s))), key) == (true, s)
  {
  }
}
