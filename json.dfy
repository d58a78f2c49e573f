/**
 * The listing of a suite's tests as Gson presents it to the rules. The
 * response body is parsed into a `JsonArray`; the element fields that are
 * read are `name`, `id` and `url`, each through `get(...)?.asString`.
 */
module Json {

  /** A field of a test object: missing, readable as a string, or one on which `asString` throws (a JSON null, an object, ...). */
  datatype Field = Absent | Str(value: string) | NonString

  /** An element of the array: something other than an object (`asJsonObject` throws), or an object with its three fields. */
  datatype Element = NonObject | Object(name: Field, id: Field, url: Field)

  /** The outcome of `gson.fromJson(json, JsonArray::class.java)`: a parse failure (or a null array), or the array's elements in order. */
  datatype Document = Malformed | Array(elements: seq<Element>)
}
