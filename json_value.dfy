/**
 * The generic JSON tree the parser builds: the three literal singletons, strings and numbers
 * over the chars of their tokens, objects (a HashMap from member name to value) and arrays
 * (an ArrayList, in insertion order).
 */
module JsonValues {
  import opened Wrappers
  import opened JavaText

  /** A member name: the chars of the string token before the colon. */
  type Key = seq<CodeUnit>

  datatype JsonValue =
    | JNull
    | JTrue
    | JFalse
    | JString(chars: seq<CodeUnit>)
    | JNumber(chars: seq<CodeUnit>)
    | JObject(members: map<Key, JsonValue>)
    | JArray(elements: seq<JsonValue>)

  /** JsonStructure: the values a document parses into. */
  predicate IsStructure(v: JsonValue) {
    v.JObject? || v.JArray?
  }

  /** JsonObject.get(name): the member's value, or null when there is none. */
  function Get(members: map<Key, JsonValue>, name: Key): (r: Option<JsonValue>)
    ensures r.Some? <==> name in members
    ensures r.Some? ==> r.value == members[name]
  {
    if name in members then Some(members[name]) else None
  }

  /** ArrayList.get(index): the element, or IndexOutOfBoundsException outside 0 .. size-1. */
  function ElementAt(elements: seq<JsonValue>, index: int): (r: Result<JsonValue>)
    ensures r.Ok? <==> 0 <= index < |elements|
    ensures r.Ok? ==> r.value == elements[index]
    ensures r.Err? ==> r.failure == IndexOutOfBounds
  {
    if 0 <= index < |elements| then Ok(elements[index]) else Err(IndexOutOfBounds)
  }
}
