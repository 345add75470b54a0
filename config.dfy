/**
 * The declarative configuration an entity's physics component is built from: a
 * JSON object whose fields are all optional, read the way both bindings read it.
 */
module Config {
  import opened Wrappers

  datatype Json =
    | JNull
    | JBool(b: bool)
    | JNumber(n: real)
    | JString(s: string)
    | JArray(items: seq<Json>)
    | JObject(fields: map<string, Json>)

  /** One entity's configuration record. */
  type Object = map<string, Json>

  /** Why reading a configuration stopped before anything was built. */
  datatype ConfigError =
    | NotANumber(key: string)              // the JSON library's conversion to float threw
    | TooFewValues(key: string, needed: nat) // the source reads past the end of the array

  /** Conversion of one JSON value to a float (`get<float>()`). */
  function AsFloat(j: Json): (r: Option<real>)
    ensures r.Some? <==> j.JNumber?
    ensures r.Some? ==> r.value == j.n
  {
    match j
    case JNumber(n) => Some(n)
    case _ => None
  }

  /** Conversion of a JSON array to `std::vector<float>`: every element must be a number. */
  function AsFloats(items: seq<Json>): (r: Option<seq<real>>)
    ensures r.Some? <==> forall i :: 0 <= i < |items| ==> items[i].JNumber?
    ensures r.Some? ==> |r.value| == |items| && forall i :: 0 <= i < |items| ==> r.value[i] == items[i].n
  {
    if items == [] then Some([])
    else
      match (AsFloat(items[0]), AsFloats(items[1..]))
      case (Some(x), Some(rest)) => Some([x] + rest)
      case _ => None
  }

  /**
   * A field read as a float array when it is a JSON array: `Ok(None)` when the
   * field is absent or not an array, an error when an element is not a number.
   */
  function ReadArray(cfg: Object, key: string): (r: Result<Option<seq<real>>, ConfigError>)
    ensures r.Ok? && r.value.None? <==> !(key in cfg && cfg[key].JArray?)
    ensures r.Err? ==> r.error == NotANumber(key)
    ensures r.Ok? && r.value.Some? ==> AsFloats(cfg[key].items) == r.value
  {
    if key in cfg && cfg[key].JArray? then
      match AsFloats(cfg[key].items)
      case Some(fs) => Ok(Some(fs))
      case None => Err(NotANumber(key))
    else Ok(None)
  }

  /** A numeric field, or `default` when the field is absent or not a number. */
  function NumberOr(cfg: Object, key: string, default: real): (v: real)
    ensures key in cfg && cfg[key].JNumber? ==> v == cfg[key].n
    ensures !(key in cfg && cfg[key].JNumber?) ==> v == default
  {
    if key in cfg && cfg[key].JNumber? then cfg[key].n else default
  }

  /**
   * The body kind the `type` field selects: 0 dynamic, 1 static, 2 kinematic.
   * The comparison is case-sensitive; any other string, a value that is not a
   * string, or no field at all leaves the default, dynamic.
   */
  function KindCode(cfg: Object): (kind: int)
    ensures kind == 1 <==> "type" in cfg && cfg["type"] == JString("static")
    ensures kind == 2 <==> "type" in cfg && cfg["type"] == JString("kinematic")
    ensures kind == 0 <==> !("type" in cfg && cfg["type"] in {JString("static"), JString("kinematic")})
  {
    var kind := 0;
    if "type" in cfg && cfg["type"].JString? then
      var t := cfg["type"].s;
      if t == "static" then 1
      else if t == "kinematic" then 2
      else if t == "dynamic" then 0
      else kind
    else kind
  }
}
