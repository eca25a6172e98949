/** YAML/JSON documents as the manifest loader sees them after parsing. */
module Document {
  datatype Value =
    | Null
    | Scalar(text: string)
    | List(items: seq<Value>)
    | Object(fields: map<string, Value>)

  // A mapping document: what Python calls a dict.
  type Mapping = v: Value | v.Object? witness Object(map[])
}
