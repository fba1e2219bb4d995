/**
 * The request dispatcher `_get`: the headers of one authorised call, the identity fields it
 * merges into the request body, and the classification of the reply. The POST itself is an
 * input: the reply's status and decoded body.
 */
module Dispatch {
  import opened Wrappers
  import opened Protocol
  import RequestId

  /** The session the client holds; every field is None until credentials are loaded. */
  datatype Session = Session(
    customerId: Option<string>,
    adpToken: Option<string>,
    deviceId: Option<string>,
    deviceType: Option<string>,
    cookies: Option<string>)

  /** One call as the environment answers it: the seven random draws of its id and the reply. */
  datatype Exchange = Exchange(draws: seq<nat>, reply: Response)

  const UserAgent := "Mozilla/5.0 (X11; Linux x86_64) AppleWebKit/535.19 (KHTML, like Gecko) Chrome/18.0.1025.142 Safari/535.19"
  const Referer := "https://www.amazon.com/gp/dmusic/mp3/player?ie=UTF8&ref_=gno_yam_cldplyr&"
  const Origin := "https://www.amazon.com"
  const Host := "www.amazon.com"

  /** The keys `_get` writes into the request body. */
  const IdentityKeys: set<string> :=
    {"Operation", "ContentType", "customerInfo.customerId", "customerInfo.deviceId", "customerInfo.deviceType"}

  /** The headers every authorised call carries. */
  const HeaderNames: set<string> :=
    {"x-amzn-RequestId", "x-adp-token", "x-RequestedWith", "User-Agent", "Referer", "Origin", "Cookie", "Host"}

  /**
   * `data.update({...})` in `_get`: the operation, the content type and the three identity
   * fields overwrite whatever the body held under those keys; every other key is kept.
   */
  function WithIdentity(data: Request, operation: string, s: Session): Request
  {
    data + map[
      "Operation" := Str(operation),
      "ContentType" := Str("JSON"),
      "customerInfo.customerId" := OrNull(s.customerId),
      "customerInfo.deviceId" := OrNull(s.deviceId),
      "customerInfo.deviceType" := OrNull(s.deviceType)]
  }

  /**
   * After the merge the body has the operation, the content type and the three identity
   * fields of the session, null where the session has none; every other key keeps its value.
   */
  lemma IdentityMerged(data: Request, operation: string, s: Session)
    ensures var r := WithIdentity(data, operation, s);
      && r.Keys == data.Keys + IdentityKeys
      && r["Operation"] == Str(operation) && r["ContentType"] == Str("JSON")
      && r["customerInfo.customerId"] == OrNull(s.customerId)
      && r["customerInfo.deviceId"] == OrNull(s.deviceId)
      && r["customerInfo.deviceType"] == OrNull(s.deviceType)
      && forall k | k in data && k !in IdentityKeys :: r[k] == data[k]
  {
  }

  /** Merging twice is merging once: the identity update is idempotent. */
  lemma WithIdentityIdempotent(data: Request, operation: string, s: Session)
    ensures WithIdentity(WithIdentity(data, operation, s), operation, s) == WithIdentity(data, operation, s)
  {
  }

  /** The headers of one call, given the formatted request id. */
  function Headers(requestId: string, s: Session): (h: map<string, Json>)
    ensures h.Keys == HeaderNames
    ensures h["x-amzn-RequestId"] == Str(requestId)
    ensures h["x-adp-token"] == OrNull(s.adpToken) && h["Cookie"] == OrNull(s.cookies)
    ensures h["x-RequestedWith"] == Str("XMLHttpRequest") && h["Host"] == Str(Host)
    ensures h["User-Agent"] == Str(UserAgent) && h["Referer"] == Str(Referer) && h["Origin"] == Str(Origin)
  {
    map[
      "x-amzn-RequestId" := Str(requestId),
      "x-adp-token" := OrNull(s.adpToken),
      "x-RequestedWith" := Str("XMLHttpRequest"),
      "User-Agent" := Str(UserAgent),
      "Referer" := Str(Referer),
      "Origin" := Str(Origin),
      "Cookie" := OrNull(s.cookies),
      "Host" := Str(Host)]
  }

  /** Two calls with different draws carry different request ids. */
  lemma HeadersDistinct(v: seq<nat>, w: seq<nat>, s: Session)
    requires |v| == 7 && RequestId.InRange(v) && |w| == 7 && RequestId.InRange(w) && v != w
    ensures Headers(RequestId.Format(v), s)["x-amzn-RequestId"] != Headers(RequestId.Format(w), s)["x-amzn-RequestId"]
  {
    RequestId.FormatInjective(v, w);
  }

  /**
   * `result['Error']`, then its `['Message']` and `['Code']`. A KeyError or TypeError on the
   * way (a body that is not shaped so) is MalformedErrorBody.
   */
  function ErrorFields(body: Json): (r: Option<(Json, Json)>)
    ensures r.Some? <==> (Lookup(body, "Error").Some? && Lookup(Lookup(body, "Error").value, "Message").Some?
                          && Lookup(Lookup(body, "Error").value, "Code").Some?)
    ensures r.Some? ==> r.value == (Lookup(Lookup(body, "Error").value, "Message").value,
                                    Lookup(Lookup(body, "Error").value, "Code").value)
  {
    match Lookup(body, "Error")
    case None => None
    case Some(error) =>
      match (Lookup(error, "Message"), Lookup(error, "Code"))
      case (Some(m), Some(c)) => Some((m, c))
      case _ => None
  }

  /**
   * The classification of `_get`: a status other than 200 raises RequestError with the
   * remote's own message and code; status 200 returns the decoded body untouched.
   */
  function Classify(reply: Response): (r: Result<Json, Error>)
    ensures r.Success? <==> reply.status == 200
    ensures r.Success? ==> r.value == reply.body
    ensures r.Failure? ==> (r.error.RequestError? || r.error == MalformedErrorBody)
    ensures reply.status != 200 && ErrorFields(reply.body).Some? ==>
      r == Failure(RequestError(ErrorFields(reply.body).value.0, ErrorFields(reply.body).value.1))
    ensures reply.status != 200 && ErrorFields(reply.body).None? ==> r == Failure(MalformedErrorBody)
  {
    if reply.status != 200 then
      match ErrorFields(reply.body)
      case None => Failure(MalformedErrorBody)
      case Some((m, c)) => Failure(RequestError(m, c))
    else Success(reply.body)
  }

  /** The body the remote sends with a rejection. */
  function ErrorBody(message: Json, code: Json): Json
  {
    Obj(map["Error" := Obj(map["Message" := message, "Code" := code])])
  }

  /**
   * A rejection is surfaced verbatim: whatever the status other than 200 and whatever other
   * keys the body carries, the message and code under `Error` come back unchanged.
   */
  lemma RejectionVerbatim(reply: Response, error: Json, message: Json, code: Json)
    requires reply.status != 200 && Lookup(reply.body, "Error") == Some(error)
    requires Lookup(error, "Message") == Some(message) && Lookup(error, "Code") == Some(code)
    ensures Classify(reply) == Failure(RequestError(message, code))
  {
  }

  /** The rejection body as the remote shapes it is one such body. */
  lemma RejectionBody(status: int, message: Json, code: Json)
    requires status != 200
    ensures Classify(Response(status, ErrorBody(message, code))) == Failure(RequestError(message, code))
  {
    var error := Obj(map["Message" := message, "Code" := code]);
    assert Lookup(ErrorBody(message, code), "Error") == Some(error);
    RejectionVerbatim(Response(status, ErrorBody(message, code)), error, message, code);
  }
}
