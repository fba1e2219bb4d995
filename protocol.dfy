/**
 * Values exchanged with the remote music service: the JSON-like values found in request
 * bodies and responses, the errors the client raises, and the reply of one POST.
 */
module Protocol {
  import opened Wrappers

  /** A decoded JSON value, or a value stored in a request dictionary. */
  datatype Json =
    | Null
    | Bool(b: bool)
    | Num(n: int)
    | Str(s: string)
    | Arr(items: seq<Json>)
    | Obj(fields: map<string, Json>)

  /** A request body: wire parameter name to value. */
  type Request = map<string, Json>

  /** One reply of the remote service: its HTTP status and its decoded body. */
  datatype Response = Response(status: int, body: Json)

  /** The failures the client raises. */
  datatype Error =
    | MissingPayloadKey(key: string)      // a navigation step found no such key
    | NotAMapping(key: string)            // indexing a value that is not a mapping raises TypeError
    | RequestErrorArity                   // TypeError: RequestError constructed with one argument
    | RequestError(message: Json, code: Json)  // the remote rejected the call
    | MalformedErrorBody                  // a non-200 body without Error.Message and Error.Code
    | NotIterable                         // an item list that is not a list
    | MissingNextToken                    // a search result without nextResultsToken
    | MissingUrl                          // a stream-url item without 'url'
    | TransportError                      // the remote did not answer

  /** Python truthiness of a value, as tested by `if not token`. */
  predicate Truthy(j: Json)
  {
    match j
    case Null => false
    case Bool(b) => b
    case Num(n) => n != 0
    case Str(s) => s != ""
    case Arr(items) => items != []
    case Obj(fields) => fields != map[]
  }

  /** An optional string as it is stored in a dictionary: None becomes null. */
  function OrNull(o: Option<string>): (j: Json)
    ensures o.None? <==> j == Null
    ensures o.Some? ==> j == Str(o.value)
  {
    match o
    case None => Null
    case Some(s) => Str(s)
  }

  /** `d[key]` on a decoded value: defined only on a mapping that holds the key. */
  function Lookup(d: Json, key: string): (r: Option<Json>)
    ensures r.Some? <==> d.Obj? && key in d.fields
    ensures r.Some? ==> r.value == d.fields[key]
  {
    if d.Obj? && key in d.fields then Some(d.fields[key]) else None
  }

  /** `needle in hay` on strings: hay contains needle as a contiguous substring. */
  predicate IsSubstring(needle: string, hay: string)
  {
    exists i | 0 <= i <= |hay| :: OccursAt(needle, hay, i)
  }

  predicate OccursAt(needle: string, hay: string, i: int)
  {
    0 <= i <= |hay| - |needle| && hay[i..i + |needle|] == needle
  }

  predicate StartsWith(s: string, head: string)
  {
    |head| <= |s| && s[..|head|] == head
  }
}
