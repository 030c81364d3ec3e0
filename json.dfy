/**
 * The structured value tree the serializer produces and consumes
 * (the nlohmann `json` type, seen as a tree; text syntax is not modelled).
 * Object members are a map from key to value: nlohmann's default object
 * type keeps one value per key.
 */
module Json {

  datatype Json =
    | JNull
    | JBool(b: bool)
    | JInt(i: int)
    | JString(s: string)
    | JArray(items: seq<Json>)
    | JObject(members: map<string, Json>)

  /** `j.contains(key)`: true only for an object that has `key` as a member. */
  predicate Contains(j: Json, key: string) {
    j.JObject? && key in j.members
  }
}
