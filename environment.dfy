/** What both session stores stand on: errors, the session value map, the
    secure-cookie codec, the cookie transport, the gorilla session object and
    the MongoDB collection as the driver presents it. */
module Environment {
  import opened ObjectIds

  datatype Option<T> = None | Some(value: T)

  datatype Result<T> = Ok(value: T) | Err(error: Error)

  /** Every error either store can return. The driver and the codec may fail
      with errors of their own, which pass through unchanged. */
  datatype Error =
    | ErrInvalidID              // "Invalid Session ID"
    | ErrInvalidAccessTime      // "Invalid Last Accessed Time" (mongostore.go)
    | ErrInvalidModified        // "mongostore: invalid modified value" (store.go)
    | ErrNotFound               // the driver's "not found"
    | ErrNoCookie               // no cookie of that name on the request
    | ErrTypeMismatch           // a token decoded to a value of the wrong type
    | DriverError(reason: string)
    | CodecError(reason: string)

  /** The values a session may hold; `Time` is a time.Time as an integer instant. */
  datatype Value =
    | Str(s: string)
    | Int(i: int)
    | Bool(b: bool)
    | Time(at: int)

  type Values = map<Value, Value>

  /** What the codec serialises: either a session id (the cookie) or a value map (the record). */
  datatype Payload = IdPayload(id: string) | ValuesPayload(values: Values)

  /** The secure-cookie codec chain, seen from outside: encoding under a session
      name, and decoding a string under a session name. Either side may fail. */
  datatype Codec = Codec(
    encode: (string, Payload) -> Result<string>,
    decode: (string, string) -> Result<Payload>)

  /** The codec law: whatever was encoded under a name decodes, under that name, to itself. */
  ghost predicate RoundTrips(c: Codec) {
    forall name, p :: c.encode(name, p).Ok? ==> c.decode(name, c.encode(name, p).value) == Ok(p)
  }

  /** Decoding a cookie token into the session's string id: an id payload is
      accepted, a value-map payload is a type mismatch, a codec error passes through. */
  function DecodeId(codecs: Codec, name: string, token: string): (r: Result<string>)
    ensures r.Ok? ==> codecs.decode(name, token) == Ok(IdPayload(r.value))
    ensures codecs.decode(name, token).Err? ==> r == Err(codecs.decode(name, token).error)
    ensures codecs.decode(name, token).Ok? && codecs.decode(name, token).value.ValuesPayload? ==>
      r == Err(ErrTypeMismatch)
  {
    match codecs.decode(name, token)
    case Ok(IdPayload(id)) => Ok(id)
    case Ok(ValuesPayload(_)) => Err(ErrTypeMismatch)
    case Err(e) => Err(e)
  }

  /** Decoding a stored record's data into the session's value map: a value-map
      payload is accepted, an id payload is a type mismatch, a codec error passes through. */
  function DecodeValues(codecs: Codec, name: string, data: string): (r: Result<Values>)
    ensures r.Ok? ==> codecs.decode(name, data) == Ok(ValuesPayload(r.value))
    ensures codecs.decode(name, data).Err? ==> r == Err(codecs.decode(name, data).error)
    ensures codecs.decode(name, data).Ok? && codecs.decode(name, data).value.IdPayload? ==>
      r == Err(ErrTypeMismatch)
  {
    match codecs.decode(name, data)
    case Ok(ValuesPayload(v)) => Ok(v)
    case Ok(IdPayload(_)) => Err(ErrTypeMismatch)
    case Err(e) => Err(e)
  }

  /** Cookie attributes of a session (gorilla's sessions.Options). */
  datatype Options = Options(path: string, domain: string, maxAge: int, secure: bool, httpOnly: bool)

  const ZeroOptions := Options("", "", 0, false, false)

  /** The options `New` gives a session: only Path and MaxAge come from the store's defaults. */
  function SessionOptions(defaults: Options): (o: Options)
    ensures o.path == defaults.path && o.maxAge == defaults.maxAge
    ensures o.domain == "" && !o.secure && !o.httpOnly
  {
    Options(defaults.path, "", defaults.maxAge, false, false)
  }

  /** One Set-Cookie header written to the response. */
  datatype Cookie = Cookie(name: string, value: string, options: Options)

  /** The cookies a store operation set: none, or the one it chose. */
  function CookiesOf(token: Option<Cookie>): seq<Cookie> {
    if token.Some? then [token.value] else []
  }

  /** The inbound request, reduced to the cookies it carries. */
  datatype Request = Request(cookies: map<string, string>)

  /** TokenGetSeter.GetToken: the token stored under a session name, or a missing-cookie error. */
  function GetToken(r: Request, name: string): (t: Result<string>)
    ensures t.Ok? <==> name in r.cookies
    ensures t.Ok? ==> t.value == r.cookies[name]
    ensures t.Err? ==> t.error == ErrNoCookie
  {
    if name in r.cookies then Ok(r.cookies[name]) else Err(ErrNoCookie)
  }

  /** The outbound response, reduced to the cookies set on it. */
  class Response {
    var setCookies: seq<Cookie>

    constructor ()
      ensures setCookies == []
    {
      setCookies := [];
    }

    /** TokenGetSeter.SetToken: write one cookie carrying `value` under `name`. */
    method SetToken(name: string, value: string, options: Options)
      modifies this
      ensures setCookies == old(setCookies) + [Cookie(name, value, options)]
    {
      setCookies := setCookies + [Cookie(name, value, options)];
    }
  }

  /** gorilla's sessions.Session: a named session whose id, values, options and
      "new" flag the store updates in place. */
  class Session {
    const name: string
    var id: string
    var values: Values
    var options: Options
    var isNew: bool

    /** sessions.NewSession: no id, no values, zero options, not yet flagged new
        (the stores set the flag themselves). */
    constructor (name: string)
      ensures this.name == name && id == "" && values == map[]
      ensures options == ZeroOptions && !isNew
    {
      this.name := name;
      id := "";
      values := map[];
      options := ZeroOptions;
      isNew := false;
    }
  }

  /** Failures injected into the driver calls of one store operation; a call
      whose entry is `Some(e)` fails with `e` and changes nothing. */
  datatype Faults = Faults(find: Option<Error>, update: Option<Error>, upsert: Option<Error>, remove: Option<Error>)

  const NoFaults := Faults(None, None, None, None)

  /** The effect of a write on the collection: the error returned and the documents afterwards. */
  datatype Outcome<R> = Outcome(err: Option<Error>, docs: map<ObjectId, R>)

  /** One MongoDB collection, keyed by ObjectId. `calls` counts the driver calls
      made against it, so that a contract can say none was made. */
  class Collection<R> {
    var docs: map<ObjectId, R>
    ghost var calls: nat

    constructor ()
      ensures docs == map[] && calls == 0
    {
      docs := map[];
      calls := 0;
    }

    /** FindId(id).One(&doc): the document stored under `id`, or not found. */
    method FindId(id: ObjectId, fault: Option<Error>) returns (r: Result<R>)
      modifies this`calls
      ensures calls == old(calls) + 1
      ensures fault.Some? ==> r == Err(fault.value)
      ensures fault.None? && id in docs ==> r == Ok(docs[id])
      ensures fault.None? && id !in docs ==> r == Err(ErrNotFound)
    {
      calls := calls + 1;
      if fault.Some? {
        r := Err(fault.value);
      } else if id in docs {
        r := Ok(docs[id]);
      } else {
        r := Err(ErrNotFound);
      }
    }

    /** UpdateId: replace an existing document; not found when there is none. */
    method UpdateId(id: ObjectId, doc: R, fault: Option<Error>) returns (err: Option<Error>)
      modifies this
      ensures calls == old(calls) + 1
      ensures fault.Some? ==> err == fault && docs == old(docs)
      ensures fault.None? && id in old(docs) ==> err == None && docs == old(docs)[id := doc]
      ensures fault.None? && id !in old(docs) ==> err == Some(ErrNotFound) && docs == old(docs)
    {
      calls := calls + 1;
      if fault.Some? {
        err := fault;
      } else if id in docs {
        docs := docs[id := doc];
        err := None;
      } else {
        err := Some(ErrNotFound);
      }
    }

    /** UpsertId: insert the document, or replace the one stored under `id`. */
    method UpsertId(id: ObjectId, doc: R, fault: Option<Error>) returns (err: Option<Error>)
      modifies this
      ensures calls == old(calls) + 1
      ensures fault.Some? ==> err == fault && docs == old(docs)
      ensures fault.None? ==> err == None && docs == old(docs)[id := doc]
    {
      calls := calls + 1;
      if fault.Some? {
        err := fault;
      } else {
        docs := docs[id := doc];
        err := None;
      }
    }

    /** RemoveId: remove the document stored under `id`; not found when there is none. */
    method RemoveId(id: ObjectId, fault: Option<Error>) returns (err: Option<Error>)
      modifies this
      ensures calls == old(calls) + 1
      ensures err == RemoveSpec(old(docs), id, fault).err
      ensures docs == RemoveSpec(old(docs), id, fault).docs
    {
      calls := calls + 1;
      if fault.Some? {
        err := fault;
      } else if id in docs {
        docs := docs - {id};
        err := None;
      } else {
        err := Some(ErrNotFound);
      }
    }
  }

  /** The driver's RemoveId on a map of documents. */
  function RemoveSpec<R>(docs: map<ObjectId, R>, key: ObjectId, fault: Option<Error>): (o: Outcome<R>)
    ensures o.err.None? <==> fault.None? && key in docs
    ensures fault.Some? ==> o.err == fault
    ensures fault.None? && key !in docs ==> o.err == Some(ErrNotFound)
    ensures o.err.None? ==> o.docs == docs - {key}
    ensures o.err.Some? ==> o.docs == docs
  {
    if fault.Some? then Outcome(fault, docs)
    else if key in docs then Outcome(None, docs - {key})
    else Outcome(Some(ErrNotFound), docs)
  }

  /** `delete`, common to both stores: reject a malformed id, then remove the record. */
  function DeleteSpec<R>(docs: map<ObjectId, R>, id: string, f: Faults): (o: Outcome<R>)
    ensures !IsObjectIdHex(id) ==> o == Outcome(Some(ErrInvalidID), docs)
    ensures o.err.None? <==> IsObjectIdHex(id) && f.remove.None? && ObjectIdHex(id) in docs
    ensures IsObjectIdHex(id) && f.remove.Some? ==> o.err == f.remove
    ensures IsObjectIdHex(id) && f.remove.None? && ObjectIdHex(id) !in docs ==> o.err == Some(ErrNotFound)
    ensures o.err.Some? ==> o.docs == docs
    ensures o.err.None? ==> o.docs.Keys == docs.Keys - {ObjectIdHex(id)}
    ensures o.err.None? ==> forall k :: k in o.docs ==> o.docs[k] == docs[k]
    ensures IsObjectIdHex(id) && f.remove.None? ==> ObjectIdHex(id) !in o.docs
  {
    if !IsObjectIdHex(id) then Outcome(Some(ErrInvalidID), docs)
    else RemoveSpec(docs, ObjectIdHex(id), f.remove)
  }
}
