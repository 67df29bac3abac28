/** The untyped JSON intermediate (`serde_json::Value`) and the serde_json
    text codec, which the client treats as a library it calls. */
module Json {
  import opened Io
  import opened LeBytes

  datatype Option<+T> = None | Some(value: T)

  /** `serde_json::Value`. Numbers are the integers the protocol carries;
      an object maps each key to one member, as serde_json's `Map` does. */
  datatype Value =
    | Null
    | Bool(b: bool)
    | Number(n: int)
    | String(s: string)
    | Array(items: seq<Value>)
    | Object(members: map<string, Value>)

  /** `Value::get(key)`: the member named key of an object; nothing for a
      missing key or for a value that is not an object. */
  function Get(v: Value, key: string): Option<Value>
  {
    match v
    case Object(members) => if key in members then Some(members[key]) else None
    case _ => None
  }

  /** `Value::get(key).is_some()`. */
  predicate HasKey(v: Value, key: string)
  {
    Get(v, key).Some?
  }

  /** The serde_json functions the client calls, as values: `to_vec` (whose
      input the caller first turns into a `Value`) and `from_slice::<Value>`,
      whose error already carries the `io::ErrorKind` that `?` converts it to. */
  datatype Codec = Codec(serialize: Value -> seq<u8>, parse: seq<u8> -> Result<Value>)

  /** What the client relies on from serde_json for a value it sends:
      parsing what was serialised gives back the same value. */
  predicate RoundTrips(c: Codec, v: Value)
  {
    c.parse(c.serialize(v)) == Ok(v)
  }
}
