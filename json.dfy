/** JSON documents as the build script sees them: a package manifest is a JSON
    object, that is a map from member names to values. Member order is not
    modelled (it only affects how the written file is laid out). */
module JsonValues {

  /** A JSON value. Numbers are kept as their literal text, since no part of
      the script does arithmetic on them. */
  datatype Json =
    | JNull
    | JBool(b: bool)
    | JNumber(literal: string)
    | JString(s: string)
    | JArray(elems: seq<Json>)
    | JObject(fields: map<string, Json>)

  /** A package manifest: the members of the top-level JSON object. */
  type Manifest = map<string, Json>

  /** The outcome of a step that can abort the script with a thrown error. */
  datatype Result<T, E> = Ok(value: T) | Err(error: E)
}
