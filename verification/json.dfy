/** Decoded JSON-like data as the projection engine sees it: scalars, lists
    and string-keyed dictionaries, nested arbitrarily. */
module Json {

  /** `JNull` is Python's `None`. The engine also uses it for "the path did
      not resolve", so a stored null and a missing value are the same value. */
  datatype Value =
    | JNull
    | JBool(b: bool)
    | JInt(i: int)
    | JStr(s: string)
    | JList(items: seq<Value>)
    | JObj(fields: map<string, Value>)

  /** One link of a key chain: a dictionary key or a list index. */
  datatype Key = KStr(name: string) | KInt(index: int)

  type Path = seq<Key>

  predicate IsContainer(v: Value) {
    v.JList? || v.JObj?
  }
}
