/**
 * The payload navigator: `_get_payload_data` descends a decoded response along a path of
 * keys and fails at the first key that is absent, naming it.
 *
 * As written, the source raises `RequestError` with a single argument when a key is absent,
 * but `RequestError.__init__` requires both a message and a code, so the raise itself fails
 * with a TypeError and the name of the key is lost. `NavigateAsWritten` models that code;
 * `Navigate` is the evidently intended behaviour (a `MissingPayloadKey` error carrying the
 * key) and is the one the rest of the model uses.
 */
module Payload {
  import opened Wrappers
  import opened Protocol

  /**
   * Python's `key in data` on a decoded value: membership of the key in a mapping, of the
   * string among the elements of a list, substring of a string. `in` on a number, a boolean
   * or None raises TypeError, which is None here.
   */
  function Contains(data: Json, key: string): (r: Option<bool>)
    ensures data.Obj? ==> r == Some(key in data.fields)
    ensures r.None? <==> data.Null? || data.Bool? || data.Num?
  {
    match data
    case Obj(fields) => Some(key in fields)
    case Arr(items) => Some(Str(key) in items)
    case Str(s) => Some(IsSubstring(key, s))
    case _ => None
  }

  /**
   * One turn of the loop: the check `key not in data`, then `data = data[key]`. Indexing
   * anything but a mapping with a string raises TypeError. `asWritten` selects what an
   * absent key raises: the broken one-argument RequestError, or the intended error.
   */
  function Descend(data: Json, key: string, asWritten: bool): (r: Result<Json, Error>)
    ensures r.Success? <==> data.Obj? && key in data.fields
    ensures r.Success? ==> r.value == data.fields[key]
    ensures data.Obj? && key !in data.fields ==>
      r == Failure(if asWritten then RequestErrorArity else MissingPayloadKey(key))
  {
    match Contains(data, key)
    case None => Failure(NotAMapping(key))
    case Some(false) => Failure(if asWritten then RequestErrorArity else MissingPayloadKey(key))
    case Some(true) => if data.Obj? then Success(data.fields[key]) else Failure(NotAMapping(key))
  }

  function Walk(data: Json, keys: seq<string>, asWritten: bool): Result<Json, Error>
    decreases |keys|
  {
    if keys == [] then Success(data)
    else
      match Descend(data, keys[0], asWritten)
      case Failure(e) => Failure(e)
      case Success(next) => Walk(next, keys[1..], asWritten)
  }

  /** `_get_payload_data` with the error it evidently means to raise. */
  function Navigate(data: Json, keys: seq<string>): (r: Result<Json, Error>)
    ensures keys == [] ==> r == Success(data)
    ensures r.Failure? ==> exists k | k in keys :: r.error in {MissingPayloadKey(k), NotAMapping(k)}
  {
    WalkFailureNamesKey(data, keys);
    Walk(data, keys, false)
  }

  /** `_get_payload_data` as the source writes it. */
  function NavigateAsWritten(data: Json, keys: seq<string>): Result<Json, Error>
  {
    Walk(data, keys, true)
  }

  lemma {:induction false} WalkFailureNamesKey(data: Json, keys: seq<string>)
    ensures Walk(data, keys, false).Failure? ==>
      exists k | k in keys :: Walk(data, keys, false).error in {MissingPayloadKey(k), NotAMapping(k)}
    decreases |keys|
  {
    if keys != [] {
      match Descend(data, keys[0], false)
      case Failure(e) =>
        assert e in {MissingPayloadKey(keys[0]), NotAMapping(keys[0])};
      case Success(next) =>
        WalkFailureNamesKey(next, keys[1..]);
        forall k | k in keys[1..] ensures k in keys { }
    }
  }

  /** The path reaches a value through mappings that each hold the next key. */
  predicate PathPresent(data: Json, keys: seq<string>)
    decreases |keys|
  {
    keys == [] || (data.Obj? && keys[0] in data.fields && PathPresent(data.fields[keys[0]], keys[1..]))
  }

  /** The value at the end of a present path. */
  function ValueAt(data: Json, keys: seq<string>): Json
    requires PathPresent(data, keys)
    decreases |keys|
  {
    if keys == [] then data else ValueAt(data.fields[keys[0]], keys[1..])
  }

  /** Navigation succeeds exactly on a present path, and then returns the value at its end. */
  lemma {:induction false} NavigatePresent(data: Json, keys: seq<string>)
    ensures Navigate(data, keys).Success? <==> PathPresent(data, keys)
    ensures PathPresent(data, keys) ==> Navigate(data, keys) == Success(ValueAt(data, keys))
    decreases |keys|
  {
    if keys != [] {
      if data.Obj? && keys[0] in data.fields {
        NavigatePresent(data.fields[keys[0]], keys[1..]);
      }
    }
  }

  /** Navigating a + b is navigating a, then b from where a ended. */
  lemma {:induction false} NavigateAppend(data: Json, a: seq<string>, b: seq<string>)
    ensures Navigate(data, a + b) ==
      match Navigate(data, a)
      case Failure(e) => Failure(e)
      case Success(v) => Navigate(v, b)
    decreases |a|
  {
    if a == [] {
      assert a + b == b;
    } else {
      assert (a + b)[0] == a[0];
      assert (a + b)[1..] == a[1..] + b;
      match Descend(data, a[0], false)
      case Failure(e) =>
      case Success(next) => NavigateAppend(next, a[1..], b);
    }
  }

  /**
   * The first missing key is the one reported: once the keys before k lead to a mapping
   * without k, navigation fails naming k, whatever keys follow and whatever else the
   * response holds.
   */
  lemma FirstMissingKey(data: Json, before: seq<string>, k: string, after: seq<string>)
    requires PathPresent(data, before)
    requires ValueAt(data, before).Obj? && k !in ValueAt(data, before).fields
    ensures Navigate(data, before + [k] + after) == Failure(MissingPayloadKey(k))
  {
    NavigatePresent(data, before);
    NavigateAppend(data, before, [k] + after);
    assert before + [k] + after == before + ([k] + after);
  }

  /**
   * The source as written agrees with the intended navigator except on an absent key, where
   * it raises a TypeError from the malformed RequestError instead of naming the key.
   */
  lemma {:induction false} AsWrittenLosesKey(data: Json, keys: seq<string>)
    ensures NavigateAsWritten(data, keys) ==
      match Navigate(data, keys)
      case Failure(MissingPayloadKey(_)) => Failure(RequestErrorArity)
      case r => r
    decreases |keys|
  {
    if keys != [] {
      match Descend(data, keys[0], false)
      case Failure(e) =>
      case Success(next) => AsWrittenLosesKey(next, keys[1..]);
    }
  }

  /** The discrepancy on a concrete input: a reply without the outer envelope. */
  lemma AsWrittenCounterexample()
    ensures NavigateAsWritten(Obj(map[]), ["searchLibraryResponse"]) == Failure(RequestErrorArity)
    ensures Navigate(Obj(map[]), ["searchLibraryResponse"]) == Failure(MissingPayloadKey("searchLibraryResponse"))
  {
  }

  /**
   * `for item in items`: the elements of a list, the one-character strings of a string.
   * Iterating a number, a boolean or None raises TypeError, which is None here; so is a
   * mapping, whose iteration order the model does not fix.
   */
  function Elements(items: Json): (r: Option<seq<Json>>)
    ensures items.Arr? ==> r == Some(items.items)
    ensures items.Str? ==>
      (r.Some? && |r.value| == |items.s| && forall i | 0 <= i < |items.s| :: r.value[i] == Str([items.s[i]]))
    ensures r.None? <==> !items.Arr? && !items.Str?
  {
    match items
    case Arr(xs) => Some(xs)
    case Str(s) => Some(seq(|s|, i requires 0 <= i < |s| => Str([s[i]])))
    case _ => None
  }

  /** `_get_payload_data`: reassigns `data` once per key of the path. */
  method GetPayloadData(data: Json, keys: seq<string>) returns (r: Result<Json, Error>)
    ensures r == Navigate(data, keys)
    ensures PathPresent(data, keys) ==> r == Success(ValueAt(data, keys))
    ensures !PathPresent(data, keys) ==> r.Failure?
  {
    NavigatePresent(data, keys);
    var cur := data;
    for i := 0 to |keys|
      invariant Navigate(data, keys) == Navigate(cur, keys[i..])
    {
      var key := keys[i];
      assert keys[i..][0] == key && keys[i..][1..] == keys[i + 1..];
      var present := Contains(cur, key);
      if present.None? || (present.value && !cur.Obj?) {
        return Failure(NotAMapping(key));
      }
      if !present.value {
        assert Walk(cur, keys[i..], false) == Failure(MissingPayloadKey(key));
        return Failure(MissingPayloadKey(key));
      }
      cur := cur.fields[key];
    }
    return Success(cur);
  }
}
