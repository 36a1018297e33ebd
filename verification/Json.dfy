/** Decoded JSON values. Numbers keep their text, as json.Number does. */
module Json {
  datatype Value =
    | Null
    | Bool(b: bool)
    | Number(text: string)
    | String(s: string)
    | Array(items: seq<Value>)
    | Object(members: map<string, Value>)

  /** One step of a path into a value. */
  datatype Seg = Key(key: string) | Index(index: nat)
}
