/**
 The key-value store and its two request handlers. The store is the map
 `kvMap` of `KeyValueStore`; the mutex that guards it makes every handler
 body one atomic step, so each handler is a pure function from the store
 before the request to the store after it and the response.
 */
module KeyValueStore {
  import opened Http

  type Key = string
  type Value = string
  type Store = map<Key, Value>

  datatype Option<T> = None | Some(value: T)

  /** The body of a `/set` request. */
  datatype SetRequest = SetRequest(key: Key, value: Value)

  /** The body of a `/get` request. */
  datatype GetRequest = GetRequest(key: Key)

  /** What the JSON decoder made of a request body: the decoded payload, or
      the text of the decoder's error. */
  datatype DecodeResult<R> = Decoded(req: R) | DecodeError(msg: string)

  /** The fixed message of a `/get` for a key the store does not hold. */
  const KeyNotFound: string := "Key not found"

  /** The store's answer to a lookup: the value and whether it was found. */
  function Lookup(s: Store, k: Key): (r: Option<Value>)
    ensures r.Some? <==> k in s
    ensures r.Some? ==> r.value == s[k]
  {
    if k in s then Some(s[k]) else None
  }

  /** `kv.kvMap[key] = value`: inserts or overwrites one entry. */
  function Put(s: Store, k: Key, v: Value): (s': Store)
    ensures Lookup(s', k) == Some(v)
    ensures s'.Keys == s.Keys + {k}
    ensures forall k' :: k' != k ==> Lookup(s', k') == Lookup(s, k')
  {
    s[k := v]
  }

  /** `SetHandler`: a body that does not decode is answered 400 with the
      decoder's own error text and leaves the store alone; otherwise the
      entry is written and the body is the text of `StatusAccepted` printed
      without a status, so the client sees 200. */
  function SetHandler(s: Store, d: DecodeResult<SetRequest>): (out: (Store, Response))
    ensures d.DecodeError? ==> out.0 == s
    ensures d.DecodeError? ==> Status(out.1) == StatusBadRequest && out.1 == BadRequest(d.msg)
    ensures d.Decoded? ==> Lookup(out.0, d.req.key) == Some(d.req.value)
    ensures d.Decoded? ==> out.0.Keys == s.Keys + {d.req.key}
    ensures d.Decoded? ==> forall k :: k != d.req.key ==> Lookup(out.0, k) == Lookup(s, k)
    ensures d.Decoded? ==> out.1 == Text(StatusOK, "202\n") && Status(out.1) == StatusOK
  {
    match d
    case DecodeError(msg) => (s, BadRequest(msg))
    case Decoded(req) => (Put(s, req.key, req.value), Text(StatusOK, AcceptedAck()))
  }

  /** `GetHandler`: never changes the store. A body that does not decode is
      answered 400 with the decoder's error text; an absent key 404 with
      `KeyNotFound`; a present key 200 with its value. */
  function GetHandler(s: Store, d: DecodeResult<GetRequest>): (out: (Store, Response))
    ensures out.0 == s
    ensures d.DecodeError? ==> out.1 == BadRequest(d.msg) && Status(out.1) == StatusBadRequest
    ensures d.Decoded? && d.req.key !in s ==> out.1 == NotFound(KeyNotFound) && Status(out.1) == StatusNotFound
    ensures d.Decoded? ==> (out.1.OkValue? <==> d.req.key in s)
    ensures out.1.OkValue? ==> Lookup(s, d.req.key) == Some(out.1.value)
  {
    match d
    case DecodeError(msg) => (s, BadRequest(msg))
    case Decoded(req) =>
      match Lookup(s, req.key)
      case None => (s, NotFound(KeyNotFound))
      case Some(v) => (s, OkValue(v))
  }

  /** A body that fails to decode is answered 400 by either handler, and the
      text the client reads contains the decoder's error message. */
  lemma {:induction false} DecodeErrorReported(s: Store, msg: string)
    ensures Status(SetHandler(s, DecodeError(msg)).1) == StatusBadRequest
    ensures Contains(Body(SetHandler(s, DecodeError(msg)).1), msg)
    ensures Status(GetHandler(s, DecodeError(msg)).1) == StatusBadRequest
    ensures Contains(Body(GetHandler(s, DecodeError(msg)).1), msg)
  {
    var body := Body(BadRequest(msg));
    assert body[0..|msg|] == msg;
  }

  /** A request routed to one of the two store handlers. */
  datatype Request =
    | SetCall(setBody: DecodeResult<SetRequest>)
    | GetCall(getBody: DecodeResult<GetRequest>)

  /** True of a request that writes `k`: a `/set` whose body decoded. */
  predicate WritesKey(r: Request, k: Key) {
    r.SetCall? && r.setBody.Decoded? && r.setBody.req.key == k
  }

  /** True of a request that writes anything. */
  predicate Writes(r: Request) {
    r.SetCall? && r.setBody.Decoded?
  }

  /** One atomic step of the server: the routed handler's body under the lock. */
  function Handle(s: Store, r: Request): (out: (Store, Response))
    ensures !Writes(r) ==> out.0 == s
    ensures forall k :: !WritesKey(r, k) ==> Lookup(out.0, k) == Lookup(s, k)
    ensures Writes(r) ==> Lookup(out.0, r.setBody.req.key) == Some(r.setBody.req.value)
  {
    match r
    case SetCall(d) => SetHandler(s, d)
    case GetCall(d) => GetHandler(s, d)
  }

  /** Writing a key twice leaves the second value: last writer wins. */
  lemma SetOverwrite(s: Store, k: Key, v1: Value, v2: Value)
    ensures SetHandler(SetHandler(s, Decoded(SetRequest(k, v1))).0, Decoded(SetRequest(k, v2)))
         == SetHandler(s, Decoded(SetRequest(k, v2)))
  {
    assert Put(Put(s, k, v1), k, v2) == Put(s, k, v2);
  }

  /** Writing the same entry twice is the same as writing it once. */
  lemma SetIdempotent(s: Store, k: Key, v: Value)
    ensures SetHandler(SetHandler(s, Decoded(SetRequest(k, v))).0, Decoded(SetRequest(k, v)))
         == SetHandler(s, Decoded(SetRequest(k, v)))
  {
    assert Put(Put(s, k, v), k, v) == Put(s, k, v);
  }

  /** Writes to two different keys do not interfere: either order gives the same store. */
  lemma SetDistinctKeysCommute(s: Store, k1: Key, v1: Value, k2: Key, v2: Value)
    requires k1 != k2
    ensures SetHandler(SetHandler(s, Decoded(SetRequest(k1, v1))).0, Decoded(SetRequest(k2, v2))).0
         == SetHandler(SetHandler(s, Decoded(SetRequest(k2, v2))).0, Decoded(SetRequest(k1, v1))).0
  {
  }

  /** A `/get` right after a successful `/set` of the same key returns the value written. */
  lemma SetThenGet(s: Store, k: Key, v: Value)
    ensures GetHandler(SetHandler(s, Decoded(SetRequest(k, v))).0, Decoded(GetRequest(k))).1 == OkValue(v)
  {
  }
}
