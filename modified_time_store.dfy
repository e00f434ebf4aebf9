/** The session store of store.go: records carry a `modified` time, set by
    `upsert` on every save and never touched by `load`. `New` returns a token
    decode error but swallows every load error, leaving the session new.

    As in AccessTimeStore, each method of `MongoStore` is specified by a
    function with the suffix `Spec`, and the lemmas below the class state what
    the source promises about those functions. */
module ModifiedTimeStore {
  import opened ObjectIds
  import opened Environment

  /** The reserved value-map key whose time pins the record's timestamp. */
  const ModifiedField: string := "modified"

  /** The Session document stored in MongoDB; its `_id` is the key it is stored under. */
  datatype Record = Record(data: string, modified: int)

  type Docs = map<ObjectId, Record>

  /** The store's settings: codec chain, default cookie options and the collection name. */
  datatype Config = Config(codecs: Codec, options: Options, collection: string)

  /** The timestamp `upsert` writes: a time stored under "modified", else now. */
  function ModifiedTime(values: Values, now: int): (r: Result<int>)
    ensures r.Err? <==> Str(ModifiedField) in values && !values[Str(ModifiedField)].Time?
    ensures r.Err? ==> r.error == ErrInvalidModified
    ensures r.Ok? && Str(ModifiedField) in values ==> values[Str(ModifiedField)] == Time(r.value)
    ensures Str(ModifiedField) !in values ==> r == Ok(now)
  {
    var k := Str(ModifiedField);
    if k in values then
      (if values[k].Time? then Ok(values[k].at) else Err(ErrInvalidModified))
    else Ok(now)
  }

  /** `upsert`: check the id, choose the timestamp, encode the values, upsert the record. */
  function UpsertSpec(c: Config, docs: Docs, id: string, name: string, values: Values, now: int, f: Faults)
    : (o: Outcome<Record>)
    ensures o.err.Some? ==> o.docs == docs
    ensures o.err.None? ==> IsObjectIdHex(id) && ObjectIdHex(id) in o.docs
    ensures o.err.None? ==> o.docs.Keys == docs.Keys + {ObjectIdHex(id)}
    ensures o.err.None? ==> forall k :: k in docs && k != ObjectIdHex(id) ==> o.docs[k] == docs[k]
    ensures o.err.None? && RoundTrips(c.codecs) ==>
      DecodeValues(c.codecs, name, o.docs[ObjectIdHex(id)].data) == Ok(values)
  {
    if !IsObjectIdHex(id) then Outcome(Some(ErrInvalidID), docs)
    else match ModifiedTime(values, now)
      case Err(e) => Outcome(Some(e), docs)
      case Ok(at) =>
        match c.codecs.encode(name, ValuesPayload(values))
        case Err(e) => Outcome(Some(e), docs)
        case Ok(data) =>
          if f.upsert.Some? then Outcome(f.upsert, docs)
          else Outcome(None, docs[ObjectIdHex(id) := Record(data, at)])
  }

  /** `load`: check the id, find the record, decode its data. It writes nothing. */
  function LoadSpec(c: Config, docs: Docs, id: string, name: string, f: Faults): (r: Result<Values>)
    ensures r.Ok? ==> IsObjectIdHex(id) && ObjectIdHex(id) in docs
    ensures r.Ok? ==> DecodeValues(c.codecs, name, docs[ObjectIdHex(id)].data) == r
  {
    if !IsObjectIdHex(id) then Err(ErrInvalidID)
    else
      var key := ObjectIdHex(id);
      if f.find.Some? then Err(f.find.value)
      else if key !in docs then Err(ErrNotFound)
      else DecodeValues(c.codecs, name, docs[key].data)
  }

  /** What `New` produced: its error and the session's id, values and flag. */
  datatype NewOutcome = NewOutcome(err: Option<Error>, id: string, values: Values, isNew: bool)

  /** `New`: read the token, decode it into the id, try to load the record; a
      decode error is returned, a load error is dropped and the session stays new. */
  function NewSpec(c: Config, docs: Docs, r: Request, name: string, f: Faults): (o: NewOutcome)
    ensures o.isNew ==> o.values == map[]
    ensures !o.isNew ==> o.err.None?
  {
    match GetToken(r, name)
    case Err(_) => NewOutcome(None, "", map[], true)
    case Ok(token) =>
      match DecodeId(c.codecs, name, token)
      case Err(e) => NewOutcome(Some(e), "", map[], true)
      case Ok(id) =>
        match LoadSpec(c, docs, id, name, f)
        case Err(_) => NewOutcome(None, id, map[], true)
        case Ok(v) => NewOutcome(None, id, v, false)
  }

  /** What `Save` did: its error, the documents afterwards, the session's id and the cookie it set. */
  datatype SaveOutcome = SaveOutcome(err: Option<Error>, docs: Docs, id: string, token: Option<Cookie>)

  /** `Save`: a negative MaxAge deletes the record and clears the cookie; otherwise
      an id is assigned if there is none, the record is upserted and the encoded
      id is set as the cookie. */
  function SaveSpec(c: Config, docs: Docs, name: string, id: string, values: Values, options: Options,
                    newId: ObjectId, now: int, f: Faults): (o: SaveOutcome)
    ensures o.err.Some? ==> o.token == None
    ensures o.err.None? ==> o.token.Some? && o.token.value.name == name && o.token.value.options == options
    ensures id != "" ==> o.id == id
  {
    if options.maxAge < 0 then
      var d := DeleteSpec(docs, id, f);
      if d.err.Some? then SaveOutcome(d.err, d.docs, id, None)
      else SaveOutcome(None, d.docs, id, Some(Cookie(name, "", options)))
    else
      var sid := if id == "" then Hex(newId) else id;
      var u := UpsertSpec(c, docs, sid, name, values, now, f);
      if u.err.Some? then SaveOutcome(u.err, u.docs, sid, None)
      else match c.codecs.encode(name, IdPayload(sid))
        case Err(e) => SaveOutcome(Some(e), u.docs, sid, None)
        case Ok(t) => SaveOutcome(None, u.docs, sid, Some(Cookie(name, t, options)))
  }

  /** MongoStore: the settings plus the collection the sessions live in. */
  class MongoStore {
    const config: Config
    const db: Collection<Record>

    /** NewMongoStore: the default options carry only the MaxAge. The TTL index it
        may declare is not part of this model; `ensureTTL` is accepted and unused. */
    constructor (db: Collection<Record>, collectionName: string, maxAge: int, ensureTTL: bool, codecs: Codec)
      ensures config == Config(codecs, Options("", "", maxAge, false, false), collectionName)
      ensures this.db == db
    {
      config := Config(codecs, Options("", "", maxAge, false, false), collectionName);
      this.db := db;
    }

    /** New returns a session for `name` without adding it to any registry. */
    method New(r: Request, name: string, f: Faults) returns (session: Session, err: Option<Error>)
      modifies db`calls
      ensures fresh(session) && session.name == name
      ensures session.options == SessionOptions(config.options)
      ensures var o := NewSpec(config, db.docs, r, name, f);
        err == o.err && session.id == o.id && session.values == o.values && session.isNew == o.isNew
    {
      session := new Session(name);
      session.options := SessionOptions(config.options);
      session.isNew := true;
      err := None;
      var token := GetToken(r, name);
      if token.Ok? {
        var id := DecodeId(config.codecs, name, token.value);
        if id.Err? {
          err := Some(id.error);
        } else {
          session.id := id.value;
          err := Load(session, f);
          if err == None {
            session.isNew := false;
          } else {
            err := None;
          }
        }
      }
    }

    /** Save deletes or upserts the session's record and sets the matching cookie. */
    method Save(session: Session, w: Response, newId: ObjectId, now: int, f: Faults) returns (err: Option<Error>)
      modifies session`id, w, db
      ensures var o := SaveSpec(config, old(db.docs), session.name, old(session.id), session.values,
                                session.options, newId, now, f);
        err == o.err && db.docs == o.docs && session.id == o.id &&
        w.setCookies == old(w.setCookies) + CookiesOf(o.token)
    {
      if session.options.maxAge < 0 {
        err := Delete(session, f);
        if err.Some? {
          return;
        }
        w.SetToken(session.name, "", session.options);
        return None;
      }
      if session.id == "" {
        session.id := Hex(newId);
      }
      err := Upsert(session, now, f);
      if err.Some? {
        return;
      }
      var encoded := config.codecs.encode(session.name, IdPayload(session.id));
      if encoded.Err? {
        return Some(encoded.error);
      }
      w.SetToken(session.name, encoded.value, session.options);
      return None;
    }

    /** load never writes to the collection. */
    method Load(session: Session, f: Faults) returns (err: Option<Error>)
      modifies session`values, db`calls
      ensures db.docs == old(db.docs)
      ensures !IsObjectIdHex(session.id) ==> db.calls == old(db.calls)
      ensures var r := LoadSpec(config, db.docs, session.id, session.name, f);
        (r.Ok? ==> err == None && session.values == r.value) &&
        (r.Err? ==> err == Some(r.error) && session.values == old(session.values))
    {
      if !IsObjectIdHex(session.id) {
        return Some(ErrInvalidID);
      }
      var found := db.FindId(ObjectIdHex(session.id), f.find);
      if found.Err? {
        return Some(found.error);
      }
      var decoded := DecodeValues(config.codecs, session.name, found.value.data);
      if decoded.Err? {
        return Some(decoded.error);
      }
      session.values := decoded.value;
      return None;
    }

    method Upsert(session: Session, now: int, f: Faults) returns (err: Option<Error>)
      modifies db
      ensures !IsObjectIdHex(session.id) ==> db.calls == old(db.calls)
      ensures var o := UpsertSpec(config, old(db.docs), session.id, session.name, session.values, now, f);
        err == o.err && db.docs == o.docs
    {
      if !IsObjectIdHex(session.id) {
        return Some(ErrInvalidID);
      }
      var modified := ModifiedTime(session.values, now);
      if modified.Err? {
        return Some(modified.error);
      }
      var encoded := config.codecs.encode(session.name, ValuesPayload(session.values));
      if encoded.Err? {
        return Some(encoded.error);
      }
      var s := Record(encoded.value, modified.value);
      err := db.UpsertId(ObjectIdHex(session.id), s, f.upsert);
    }

    method Delete(session: Session, f: Faults) returns (err: Option<Error>)
      modifies db
      ensures !IsObjectIdHex(session.id) ==> db.calls == old(db.calls)
      ensures var o := DeleteSpec(old(db.docs), session.id, f);
        err == o.err && db.docs == o.docs
    {
      if !IsObjectIdHex(session.id) {
        return Some(ErrInvalidID);
      }
      err := db.RemoveId(ObjectIdHex(session.id), f.remove);
    }
  }

  /** `load`, `upsert` and `delete` turn away a malformed id and leave the collection as it was. */
  lemma MalformedIdRejected(c: Config, docs: Docs, id: string, name: string, values: Values, now: int, f: Faults)
    requires !IsObjectIdHex(id)
    ensures LoadSpec(c, docs, id, name, f) == Err(ErrInvalidID)
    ensures UpsertSpec(c, docs, id, name, values, now, f) == Outcome(Some(ErrInvalidID), docs)
    ensures DeleteSpec(docs, id, f) == Outcome(Some(ErrInvalidID), docs)
  {
  }

  /** The timestamp `upsert` stores: a pinned time is used, a pinned non-time is
      refused before anything is written, and without one the current time is used. */
  lemma UpsertTimestamp(c: Config, docs: Docs, id: string, name: string, values: Values, now: int, f: Faults)
    requires IsObjectIdHex(id)
    ensures var o := UpsertSpec(c, docs, id, name, values, now, f);
      var k := Str(ModifiedField);
      && (k in values && !values[k].Time? ==> o == Outcome(Some(ErrInvalidModified), docs))
      && (k in values && values[k].Time? && o.err.None? ==> o.docs[ObjectIdHex(id)].modified == values[k].at)
      && (k !in values && o.err.None? ==> o.docs[ObjectIdHex(id)].modified == now)
  {
  }

  /** A successful `upsert` stores exactly the encoded values and the chosen time under
      the id; it succeeds exactly when the id, the time, the encoding and the write do,
      and otherwise returns the first of those errors unchanged. */
  lemma UpsertStoresRecord(c: Config, docs: Docs, id: string, name: string, values: Values, now: int, f: Faults)
    ensures var o := UpsertSpec(c, docs, id, name, values, now, f);
      var enc := c.codecs.encode(name, ValuesPayload(values));
      && (o.err.None? <==> IsObjectIdHex(id) && ModifiedTime(values, now).Ok? && enc.Ok? && f.upsert.None?)
      && (o.err.None? ==> o.docs == docs[ObjectIdHex(id) := Record(enc.value, ModifiedTime(values, now).value)])
      && (IsObjectIdHex(id) && ModifiedTime(values, now).Err? ==> o.err == Some(ModifiedTime(values, now).error))
      && (IsObjectIdHex(id) && ModifiedTime(values, now).Ok? && enc.Err? ==> o.err == Some(enc.error))
      && (IsObjectIdHex(id) && ModifiedTime(values, now).Ok? && enc.Ok? && f.upsert.Some? ==> o.err == f.upsert)
  {
  }

  /** Repeating an `upsert` with the same input leaves the collection as one `upsert` does. */
  lemma UpsertIdempotent(c: Config, docs: Docs, id: string, name: string, values: Values, now: int, f: Faults)
    ensures var once := UpsertSpec(c, docs, id, name, values, now, f).docs;
      UpsertSpec(c, once, id, name, values, now, f).docs == once
  {
  }

  /** `load` of a record under a well-formed id returns the find fault, or else
      the decoded record data, which may be a decode error. */
  lemma LoadResult(c: Config, docs: Docs, id: string, name: string, f: Faults)
    requires IsObjectIdHex(id) && ObjectIdHex(id) in docs
    ensures LoadSpec(c, docs, id, name, f) ==
      (if f.find.Some? then Err(f.find.value) else DecodeValues(c.codecs, name, docs[ObjectIdHex(id)].data))
  {
  }

  /** `load` of an id with no record returns the find error. */
  lemma LoadMissing(c: Config, docs: Docs, id: string, name: string, f: Faults)
    requires IsObjectIdHex(id) && ObjectIdHex(id) !in docs
    ensures LoadSpec(c, docs, id, name, f) == Err(if f.find.Some? then f.find.value else ErrNotFound)
  {
  }

  /** How `New` ends: a missing token is no error; a token that does not decode gives
      its error; otherwise the decoded id stays on the session, any load error is
      dropped, and the session is loaded exactly when the load succeeds. */
  lemma NewOutcomes(c: Config, docs: Docs, r: Request, name: string, f: Faults)
    ensures var o := NewSpec(c, docs, r, name, f);
      && (name !in r.cookies ==> o == NewOutcome(None, "", map[], true))
      && (name in r.cookies && DecodeId(c.codecs, name, r.cookies[name]).Err? ==>
            o == NewOutcome(Some(DecodeId(c.codecs, name, r.cookies[name]).error), "", map[], true))
      && (name in r.cookies && DecodeId(c.codecs, name, r.cookies[name]).Ok? ==>
            var id := DecodeId(c.codecs, name, r.cookies[name]).value;
            var l := LoadSpec(c, docs, id, name, f);
            && o.err.None? && o.id == id
            && (!o.isNew <==> l.Ok?)
            && (l.Ok? ==> o.values == l.value))
  {
  }

  /** The only error `New` ever returns is the token's decode error. */
  lemma NewErrorIsDecodeError(c: Config, docs: Docs, r: Request, name: string, f: Faults)
    requires NewSpec(c, docs, r, name, f).err.Some?
    ensures name in r.cookies
    ensures DecodeId(c.codecs, name, r.cookies[name]).Err?
    ensures NewSpec(c, docs, r, name, f).err == Some(DecodeId(c.codecs, name, r.cookies[name]).error)
  {
  }

  /** `Save` with a negative MaxAge: the record is deleted, then the cookie is cleared
      with the session's options; a failed delete is returned and no cookie is set,
      so a session never saved (empty id) fails with ErrInvalidID. */
  lemma SaveWithNegativeMaxAge(c: Config, docs: Docs, name: string, id: string, values: Values,
                               options: Options, newId: ObjectId, now: int, f: Faults)
    requires options.maxAge < 0
    ensures var o := SaveSpec(c, docs, name, id, values, options, newId, now, f);
      var d := DeleteSpec(docs, id, f);
      && o.id == id && o.err == d.err && o.docs == d.docs
      && (o.err.None? ==> o.token == Some(Cookie(name, "", options)) && ObjectIdHex(id) !in o.docs)
      && (o.err.Some? ==> o.token == None)
      && (id == "" ==> o.err == Some(ErrInvalidID) && o.docs == docs)
  {
  }

  /** `Save` with a non-negative MaxAge: an empty id is replaced by the generated one,
      which is well formed and keys the record; a non-empty id is kept. The cookie
      carries the encoded id and is set only when the upsert and the encoding succeed;
      an upsert or encoding error is returned unchanged. */
  lemma SaveWithMaxAge(c: Config, docs: Docs, name: string, id: string, values: Values,
                       options: Options, newId: ObjectId, now: int, f: Faults)
    requires options.maxAge >= 0
    ensures var o := SaveSpec(c, docs, name, id, values, options, newId, now, f);
      var u := UpsertSpec(c, docs, o.id, name, values, now, f);
      var t := c.codecs.encode(name, IdPayload(o.id));
      && o.id == (if id == "" then Hex(newId) else id)
      && (id == "" ==> IsObjectIdHex(o.id) && ObjectIdHex(o.id) == newId)
      && o.docs == u.docs
      && (o.err.None? <==> u.err.None? && t.Ok?)
      && (o.err.None? ==> o.token == Some(Cookie(name, t.value, options)))
      && (u.err.Some? ==> o.err == u.err)
      && (u.err.None? && t.Err? ==> o.err == Some(t.error) && o.token == None)
  {
    if id == "" {
      GeneratedIdRoundTrip(newId);
    }
  }

  /** A save followed by a request carrying the cookie it set gives back a loaded
      session with the same id and values. */
  lemma SaveThenNewRestores(c: Config, docs: Docs, name: string, id: string, values: Values,
                            options: Options, newId: ObjectId, now: int, f: Faults)
    requires RoundTrips(c.codecs)
    requires options.maxAge >= 0
    requires SaveSpec(c, docs, name, id, values, options, newId, now, f).err.None?
    ensures var s := SaveSpec(c, docs, name, id, values, options, newId, now, f);
      var o := NewSpec(c, s.docs, Request(map[name := s.token.value.value]), name, NoFaults);
      o.err.None? && !o.isNew && o.id == s.id && o.values == values
  {
  }

  /** After a save with a negative MaxAge, any earlier cookie that decodes to the
      deleted id finds no record: the session is new again, keeps that id and no error
      is returned. A request without the cookie gets an empty new session. */
  lemma DeleteThenNew(c: Config, docs: Docs, name: string, id: string, values: Values,
                      options: Options, newId: ObjectId, now: int, f: Faults, token: string)
    requires options.maxAge < 0
    requires SaveSpec(c, docs, name, id, values, options, newId, now, f).err.None?
    requires c.codecs.decode(name, token) == Ok(IdPayload(id))
    ensures var s := SaveSpec(c, docs, name, id, values, options, newId, now, f);
      var o := NewSpec(c, s.docs, Request(map[name := token]), name, NoFaults);
      && o == NewOutcome(None, id, map[], true)
      && NewSpec(c, s.docs, Request(map[]), name, NoFaults) == NewOutcome(None, "", map[], true)
  {
  }
}
