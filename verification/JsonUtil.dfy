/** Reading decoded JSON the forgiving way: what is missing or of another type reads as empty. */
module JsonUtil {
  import opened Json
  import opened Options

  /** The parts of the JSON library that are not modelled: decoding text, reading a number's
      text as an integer, and writing an integer. */
  datatype Library =
    Library(decode: string -> Option<Value>, integer: string -> Option<int>, show: int -> string)

  type Members = map<string, Value>

  function Str(v: Value): string {
    if v.String? then v.s else ""
  }

  function Obj(v: Value): Option<Members> {
    if v.Object? then Some(v.members) else None
  }

  /** The members of an object; none of anything else. */
  function MembersOf(v: Value): Members {
    if v.Object? then v.members else map[]
  }

  function Arr(v: Value): seq<Value> {
    if v.Array? then v.items else []
  }

  /** A member, or null. */
  function At(m: Members, k: string): Value {
    if k in m then m[k] else Null
  }

  function ToInt(lib: Library, v: Value): Option<int> {
    if v.Number? then lib.integer(v.text) else None
  }

  function IntOr(lib: Library, v: Value, d: int): int {
    match ToInt(lib, v)
    case None => d
    case Some(n) => n
  }

  function DecodeObject(lib: Library, text: string): Option<Members> {
    match lib.decode(text)
    case None => None
    case Some(v) => Obj(v)
  }

  // ---- The same readings as laws state them, member by member ------------------------

  predicate Says(m: Members, k: string, s: string) {
    k in m && m[k] == String(s)
  }

  /** The string under k, empty when there is none. */
  function TextIn(m: Members, k: string): string {
    if k in m && m[k].String? then m[k].s else ""
  }

  /** The object under k, empty when there is none. */
  function ObjectIn(m: Members, k: string): Members {
    if k in m && m[k].Object? then m[k].members else map[]
  }

  /** The items of the array under k, none when there is none. */
  function ItemsIn(m: Members, k: string): seq<Value> {
    if k in m && m[k].Array? then m[k].items else []
  }

  /** The index m gives, or d. */
  function IndexIn(lib: Library, m: Members, d: int): int {
    if "index" in m && m["index"].Number? && lib.integer(m["index"].text).Some? then
      lib.integer(m["index"].text).value
    else d
  }

  /** k is in both, with the same value, or in neither. */
  predicate SameAt(m: Members, n: Members, k: string) {
    (k in m <==> k in n) && (k in m ==> m[k] == n[k])
  }
}
