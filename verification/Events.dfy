/** JSON values, bus events and the pump's context snapshot. */
module Events {
  import opened ConditionSyntax

  datatype Option<+T> = None | Some(value: T)

  /** `serde_json` keeps integers and floats apart: they are unequal as values but equal as `f64`. */
  datatype JsonNumber = Integer(i: int) | Float(r: real)

  datatype Json =
    | JNull
    | JBool(b: bool)
    | JNumber(n: JsonNumber)
    | JString(s: Text)
    | JArray(items: seq<Json>)
    | JObject(members: map<Text, Json>)

  datatype Origin = Internal | External

  datatype Event = Event(
    kind: Text, source: Text, timestampMs: nat, payload: Json, bridgeId: Option<nat>, origin: Origin)

  datatype Context = Context(activePanel: Option<Text>, activeCwd: Option<Text>)

  const COMPLETION_EVENT_SOURCE: Text := "nestty.action"

  /** `Value::get` with a string key: only objects have members. */
  function Member(v: Json, key: Text): Option<Json> {
    if v.JObject? && key in v.members then Some(v.members[key]) else None
  }

  predicate HasPrefix(s: Text, prefix: Text) { prefix <= s }

  predicate HasSuffix(s: Text, suffix: Text) { |suffix| <= |s| && s[|s| - |suffix|..] == suffix }

  function StripSuffix(s: Text, suffix: Text): Text
    requires HasSuffix(s, suffix)
  {
    s[..|s| - |suffix|]
  }
}
