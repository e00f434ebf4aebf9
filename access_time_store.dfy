/** The session store of mongostore.go: records carry a `lastAccessed` time,
    which `upsert` sets on every save and `load` may bump on every read
    (`autoUpdateTime`). `New` returns load and decode errors to its caller.

    Each store operation is a method of `MongoStore` that changes the session
    object, the response and the collection in place; each is specified by a
    function of the same name with the suffix `Spec`, and the lemmas below the
    class state what the source promises about those functions. */
module AccessTimeStore {
  import opened ObjectIds
  import opened Environment

  /** The reserved value-map key whose time pins the record's timestamp. */
  const LastAccessedField: string := "lastAccessed"

  /** The Session document stored in MongoDB; its `_id` is the key it is stored under. */
  datatype Record = Record(data: string, lastAccessed: Option<int>)

  type Docs = map<ObjectId, Record>

  /** The store's settings: codec chain, default cookie options, whether every
      load bumps the access time, and the collection name. */
  datatype Config = Config(codecs: Codec, options: Options, autoUpdateTime: bool, collection: string)

  /** The timestamp `upsert` writes: a time stored under "lastAccessed", else now. */
  function AccessTime(values: Values, now: int): (r: Result<int>)
    ensures r.Err? <==> Str(LastAccessedField) in values && !values[Str(LastAccessedField)].Time?
    ensures r.Err? ==> r.error == ErrInvalidAccessTime
    ensures r.Ok? && Str(LastAccessedField) in values ==> values[Str(LastAccessedField)] == Time(r.value)
    ensures Str(LastAccessedField) !in values ==> r == Ok(now)
  {
    var k := Str(LastAccessedField);
    if k in values then
      (if values[k].Time? then Ok(values[k].at) else Err(ErrInvalidAccessTime))
    else Ok(now)
  }

  /** `upsert`: check the id, choose the timestamp, encode the values, upsert the record. */
  function UpsertSpec(c: Config, docs: Docs, id: string, name: string, values: Values, now: int, f: Faults)
    : (o: Outcome<Record>)
    ensures o.err.Some? ==> o.docs == docs
    ensures o.err.None? ==> IsObjectIdHex(id) && ObjectIdHex(id) in o.docs
    ensures o.err.None? ==> o.docs.Keys == docs.Keys + {ObjectIdHex(id)}
    ensures o.err.None? ==> forall k :: k in docs && k != ObjectIdHex(id) ==> o.docs[k] == docs[k]
    ensures o.err.None? && RoundTrips(c.codecs) ==>
      DecodeValues(c.codecs, name, o.docs[ObjectIdHex(id)].data) == Ok(values)
  {
    if !IsObjectIdHex(id) then Outcome(Some(ErrInvalidID), docs)
    else match AccessTime(values, now)
      case Err(e) => Outcome(Some(e), docs)
      case Ok(at) =>
        match c.codecs.encode(name, ValuesPayload(values))
        case Err(e) => Outcome(Some(e), docs)
        case Ok(data) =>
          if f.upsert.Some? then Outcome(f.upsert, docs)
          else Outcome(None, docs[ObjectIdHex(id) := Record(data, Some(at))])
  }

  /** What `load` did: the decoded values or the error, and the documents afterwards. */
  datatype LoadOutcome = LoadOutcome(result: Result<Values>, docs: Docs)

  /** `load`: check the id, find the record, bump its access time when the store
      is configured to, then decode its data. */
  function LoadSpec(c: Config, docs: Docs, id: string, name: string, now: int, f: Faults): (o: LoadOutcome)
    ensures o.docs.Keys == docs.Keys
    ensures forall k :: k in docs ==> o.docs[k].data == docs[k].data
    ensures !c.autoUpdateTime ==> o.docs == docs
    ensures o.result.Ok? ==> IsObjectIdHex(id) && ObjectIdHex(id) in docs
    ensures o.result.Ok? ==> DecodeValues(c.codecs, name, docs[ObjectIdHex(id)].data) == o.result
  {
    if !IsObjectIdHex(id) then LoadOutcome(Err(ErrInvalidID), docs)
    else
      var key := ObjectIdHex(id);
      if f.find.Some? then LoadOutcome(Err(f.find.value), docs)
      else if key !in docs then LoadOutcome(Err(ErrNotFound), docs)
      else
        var rec := docs[key];
        if c.autoUpdateTime && f.update.Some? then LoadOutcome(Err(f.update.value), docs)
        else
          var after := if c.autoUpdateTime then docs[key := rec.(lastAccessed := Some(now))] else docs;
          LoadOutcome(DecodeValues(c.codecs, name, rec.data), after)
  }

  /** What `New` produced: its error, the documents afterwards and the session's id, values and flag. */
  datatype NewOutcome = NewOutcome(err: Option<Error>, docs: Docs, id: string, values: Values, isNew: bool)

  /** `New`: read the token, decode it into the id, load the record; any failure
      after the token was found is returned, and the session stays new. */
  function NewSpec(c: Config, docs: Docs, r: Request, name: string, now: int, f: Faults): (o: NewOutcome)
    ensures o.isNew ==> o.values == map[]
    ensures !o.isNew ==> o.err.None?
  {
    match GetToken(r, name)
    case Err(_) => NewOutcome(None, docs, "", map[], true)
    case Ok(token) =>
      match DecodeId(c.codecs, name, token)
      case Err(e) => NewOutcome(Some(e), docs, "", map[], true)
      case Ok(id) =>
        var l := LoadSpec(c, docs, id, name, now, f);
        match l.result
        case Err(e) => NewOutcome(Some(e), l.docs, id, map[], true)
        case Ok(v) => NewOutcome(None, l.docs, id, v, false)
  }

  /** What `Save` did: its error, the documents afterwards, the session's id and the cookie it set. */
  datatype SaveOutcome = SaveOutcome(err: Option<Error>, docs: Docs, id: string, token: Option<Cookie>)

  /** `Save`: a negative MaxAge deletes the record and clears the cookie; otherwise
      an id is assigned if there is none, the record is upserted and the encoded
      id is set as the cookie. */
  function SaveSpec(c: Config, docs: Docs, name: string, id: string, values: Values, options: Options,
                    newId: ObjectId, now: int, f: Faults): (o: SaveOutcome)
    ensures o.err.Some? ==> o.token == None
    ensures o.err.None? ==> o.token.Some? && o.token.value.name == name && o.token.value.options == options
    ensures id != "" ==> o.id == id
  {
    if options.maxAge < 0 then
      var d := DeleteSpec(docs, id, f);
      if d.err.Some? then SaveOutcome(d.err, d.docs, id, None)
      else SaveOutcome(None, d.docs, id, Some(Cookie(name, "", options)))
    else
      var sid := if id == "" then Hex(newId) else id;
      var u := UpsertSpec(c, docs, sid, name, values, now, f);
      if u.err.Some? then SaveOutcome(u.err, u.docs, sid, None)
      else match c.codecs.encode(name, IdPayload(sid))
        case Err(e) => SaveOutcome(Some(e), u.docs, sid, None)
        case Ok(t) => SaveOutcome(None, u.docs, sid, Some(Cookie(name, t, options)))
  }

  /** MongoStore: the settings plus the collection the sessions live in. */
  class MongoStore {
    const config: Config
    const db: Collection<Record>

    /** The TTL index the constructor may declare is not part of this model; `ensureTTL` is accepted and unused. */
    constructor (db: Collection<Record>, collectionName: string, options: Options, ensureTTL: bool,
                 autoUpdateAccessTime: bool, codecs: Codec)
      ensures config == Config(codecs, options, autoUpdateAccessTime, collectionName)
      ensures this.db == db
    {
      config := Config(codecs, options, autoUpdateAccessTime, collectionName);
      this.db := db;
    }

    /** New returns a session for `name` without adding it to any registry. */
    method New(r: Request, name: string, now: int, f: Faults) returns (session: Session, err: Option<Error>)
      modifies db
      ensures fresh(session) && session.name == name
      ensures session.options == SessionOptions(config.options)
      ensures var o := NewSpec(config, old(db.docs), r, name, now, f);
        err == o.err && db.docs == o.docs &&
        session.id == o.id && session.values == o.values && session.isNew == o.isNew
    {
      session := new Session(name);
      session.options := SessionOptions(config.options);
      session.isNew := true;
      var token := GetToken(r, name);
      if token.Err? {
        return session, None;
      }
      var id := DecodeId(config.codecs, name, token.value);
      if id.Err? {
        return session, Some(id.error);
      }
      session.id := id.value;
      err := Load(session, now, f);
      if err.Some? {
        return;
      }
      session.isNew := false;
    }

    /** Save deletes or upserts the session's record and sets the matching cookie. */
    method Save(session: Session, w: Response, newId: ObjectId, now: int, f: Faults) returns (err: Option<Error>)
      modifies session`id, w, db
      ensures var o := SaveSpec(config, old(db.docs), session.name, old(session.id), session.values,
                                session.options, newId, now, f);
        err == o.err && db.docs == o.docs && session.id == o.id &&
        w.setCookies == old(w.setCookies) + CookiesOf(o.token)
    {
      if session.options.maxAge < 0 {
        err := Delete(session, f);
        if err.Some? {
          return;
        }
        w.SetToken(session.name, "", session.options);
        return None;
      }
      if session.id == "" {
        session.id := Hex(newId);
      }
      err := Upsert(session, now, f);
      if err.Some? {
        return;
      }
      var encoded := config.codecs.encode(session.name, IdPayload(session.id));
      if encoded.Err? {
        return Some(encoded.error);
      }
      w.SetToken(session.name, encoded.value, session.options);
      return None;
    }

    method Load(session: Session, now: int, f: Faults) returns (err: Option<Error>)
      modifies session`values, db
      ensures !IsObjectIdHex(session.id) ==> db.calls == old(db.calls)
      ensures var o := LoadSpec(config, old(db.docs), session.id, session.name, now, f);
        db.docs == o.docs &&
        (o.result.Ok? ==> err == None && session.values == o.result.value) &&
        (o.result.Err? ==> err == Some(o.result.error) && session.values == old(session.values))
    {
      if !IsObjectIdHex(session.id) {
        return Some(ErrInvalidID);
      }
      var key := ObjectIdHex(session.id);
      var found := db.FindId(key, f.find);
      if found.Err? {
        return Some(found.error);
      }
      var s := found.value;
      if config.autoUpdateTime {
        s := s.(lastAccessed := Some(now));
        err := db.UpdateId(key, s, f.update);
        if err.Some? {
          return;
        }
      }
      var decoded := DecodeValues(config.codecs, session.name, s.data);
      if decoded.Err? {
        return Some(decoded.error);
      }
      session.values := decoded.value;
      return None;
    }

    method Upsert(session: Session, now: int, f: Faults) returns (err: Option<Error>)
      modifies db
      ensures !IsObjectIdHex(session.id) ==> db.calls == old(db.calls)
      ensures var o := UpsertSpec(config, old(db.docs), session.id, session.name, session.values, now, f);
        err == o.err && db.docs == o.docs
    {
      if !IsObjectIdHex(session.id) {
        return Some(ErrInvalidID);
      }
      var accessed := AccessTime(session.values, now);
      if accessed.Err? {
        return Some(accessed.error);
      }
      var encoded := config.codecs.encode(session.name, ValuesPayload(session.values));
      if encoded.Err? {
        return Some(encoded.error);
      }
      var s := Record(encoded.value, Some(accessed.value));
      err := db.UpsertId(ObjectIdHex(session.id), s, f.upsert);
    }

    method Delete(session: Session, f: Faults) returns (err: Option<Error>)
      modifies db
      ensures !IsObjectIdHex(session.id) ==> db.calls == old(db.calls)
      ensures var o := DeleteSpec(old(db.docs), session.id, f);
        err == o.err && db.docs == o.docs
    {
      if !IsObjectIdHex(session.id) {
        return Some(ErrInvalidID);
      }
      err := db.RemoveId(ObjectIdHex(session.id), f.remove);
    }
  }

  /** `load`, `upsert` and `delete` turn away a malformed id and leave the collection as it was. */
  lemma MalformedIdRejected(c: Config, docs: Docs, id: string, name: string, values: Values, now: int, f: Faults)
    requires !IsObjectIdHex(id)
    ensures LoadSpec(c, docs, id, name, now, f) == LoadOutcome(Err(ErrInvalidID), docs)
    ensures UpsertSpec(c, docs, id, name, values, now, f) == Outcome(Some(ErrInvalidID), docs)
    ensures DeleteSpec(docs, id, f) == Outcome(Some(ErrInvalidID), docs)
  {
  }

  /** The timestamp `upsert` stores: a pinned time is used, a pinned non-time is
      refused before anything is written, and without one the current time is used. */
  lemma UpsertTimestamp(c: Config, docs: Docs, id: string, name: string, values: Values, now: int, f: Faults)
    requires IsObjectIdHex(id)
    ensures var o := UpsertSpec(c, docs, id, name, values, now, f);
      var k := Str(LastAccessedField);
      && (k in values && !values[k].Time? ==> o == Outcome(Some(ErrInvalidAccessTime), docs))
      && (k in values && values[k].Time? && o.err.None? ==>
            o.docs[ObjectIdHex(id)].lastAccessed == Some(values[k].at))
      && (k !in values && o.err.None? ==> o.docs[ObjectIdHex(id)].lastAccessed == Some(now))
  {
  }

  /** A successful `upsert` stores exactly the encoded values and the chosen time under
      the id; it succeeds exactly when the id, the time, the encoding and the write do,
      and otherwise returns the first of those errors unchanged. */
  lemma UpsertStoresRecord(c: Config, docs: Docs, id: string, name: string, values: Values, now: int, f: Faults)
    ensures var o := UpsertSpec(c, docs, id, name, values, now, f);
      var enc := c.codecs.encode(name, ValuesPayload(values));
      && (o.err.None? <==> IsObjectIdHex(id) && AccessTime(values, now).Ok? && enc.Ok? && f.upsert.None?)
      && (o.err.None? ==> o.docs == docs[ObjectIdHex(id) := Record(enc.value, Some(AccessTime(values, now).value))])
      && (IsObjectIdHex(id) && AccessTime(values, now).Err? ==> o.err == Some(AccessTime(values, now).error))
      && (IsObjectIdHex(id) && AccessTime(values, now).Ok? && enc.Err? ==> o.err == Some(enc.error))
      && (IsObjectIdHex(id) && AccessTime(values, now).Ok? && enc.Ok? && f.upsert.Some? ==> o.err == f.upsert)
  {
  }

  /** Repeating an `upsert` with the same input leaves the collection as one `upsert` does. */
  lemma UpsertIdempotent(c: Config, docs: Docs, id: string, name: string, values: Values, now: int, f: Faults)
    ensures var once := UpsertSpec(c, docs, id, name, values, now, f).docs;
      UpsertSpec(c, once, id, name, values, now, f).docs == once
  {
  }

  /** `load` of an id with no record returns the find error and changes nothing. */
  lemma LoadMissing(c: Config, docs: Docs, id: string, name: string, now: int, f: Faults)
    requires IsObjectIdHex(id) && ObjectIdHex(id) !in docs
    ensures LoadSpec(c, docs, id, name, now, f) ==
      LoadOutcome(Err(if f.find.Some? then f.find.value else ErrNotFound), docs)
  {
  }

  /** `load` of a well-formed id: a find fault is returned; for an existing record a
      failed access-time bump is returned with nothing changed, so the session is never
      loaded after a failed refresh; otherwise the result is the decoded record data. */
  lemma LoadResult(c: Config, docs: Docs, id: string, name: string, now: int, f: Faults)
    requires IsObjectIdHex(id)
    ensures var o := LoadSpec(c, docs, id, name, now, f);
      var key := ObjectIdHex(id);
      && (f.find.Some? ==> o == LoadOutcome(Err(f.find.value), docs))
      && (f.find.None? && key in docs && c.autoUpdateTime && f.update.Some? ==>
            o == LoadOutcome(Err(f.update.value), docs))
      && (f.find.None? && key in docs && !(c.autoUpdateTime && f.update.Some?) ==>
            o.result == DecodeValues(c.codecs, name, docs[key].data))
  {
  }

  /** With `autoUpdateTime`, a found record's access time becomes now and its data is
      kept, and the bump stays even when decoding the data then fails. */
  lemma LoadBumpsAccessTime(c: Config, docs: Docs, id: string, name: string, now: int, f: Faults)
    requires c.autoUpdateTime && IsObjectIdHex(id) && ObjectIdHex(id) in docs
    requires f.find.None? && f.update.None?
    ensures var o := LoadSpec(c, docs, id, name, now, f);
      var key := ObjectIdHex(id);
      && o.docs == docs[key := Record(docs[key].data, Some(now))]
      && o.result == DecodeValues(c.codecs, name, docs[key].data)
  {
  }

  /** In access-time mode two successive reads of an existing record leave the later
      time stored, whether or not its data decodes. */
  lemma AccessTimeAdvances(c: Config, docs: Docs, id: string, name: string, t1: int, t2: int)
    requires c.autoUpdateTime && t1 < t2
    requires IsObjectIdHex(id) && ObjectIdHex(id) in docs
    ensures var first := LoadSpec(c, docs, id, name, t1, NoFaults).docs;
      var second := LoadSpec(c, first, id, name, t2, NoFaults).docs;
      && first[ObjectIdHex(id)].lastAccessed == Some(t1)
      && second[ObjectIdHex(id)].lastAccessed == Some(t2)
  {
  }

  /** How `New` ends: the session is loaded exactly when the token is there, decodes and
      the record loads; a missing token is no error; every later failure is returned. */
  lemma NewOutcomes(c: Config, docs: Docs, r: Request, name: string, now: int, f: Faults)
    ensures var o := NewSpec(c, docs, r, name, now, f);
      && (name !in r.cookies ==> o == NewOutcome(None, docs, "", map[], true))
      && (name in r.cookies && DecodeId(c.codecs, name, r.cookies[name]).Err? ==>
            o == NewOutcome(Some(DecodeId(c.codecs, name, r.cookies[name]).error), docs, "", map[], true))
      && (name in r.cookies && DecodeId(c.codecs, name, r.cookies[name]).Ok? ==>
            var id := DecodeId(c.codecs, name, r.cookies[name]).value;
            var l := LoadSpec(c, docs, id, name, now, f);
            && o.id == id && o.docs == l.docs
            && (!o.isNew <==> l.result.Ok?)
            && (l.result.Ok? ==> o.err.None? && o.values == l.result.value)
            && (l.result.Err? ==> o.err == Some(l.result.error)))
  {
  }

  /** `Save` with a negative MaxAge: the record is deleted, then the cookie is cleared
      with the session's options; a failed delete is returned and no cookie is set,
      so a session never saved (empty id) fails with ErrInvalidID. */
  lemma SaveWithNegativeMaxAge(c: Config, docs: Docs, name: string, id: string, values: Values,
                               options: Options, newId: ObjectId, now: int, f: Faults)
    requires options.maxAge < 0
    ensures var o := SaveSpec(c, docs, name, id, values, options, newId, now, f);
      var d := DeleteSpec(docs, id, f);
      && o.id == id && o.err == d.err && o.docs == d.docs
      && (o.err.None? ==> o.token == Some(Cookie(name, "", options)) && ObjectIdHex(id) !in o.docs)
      && (o.err.Some? ==> o.token == None)
      && (id == "" ==> o.err == Some(ErrInvalidID) && o.docs == docs)
  {
  }

  /** `Save` with a non-negative MaxAge: an empty id is replaced by the generated one,
      which is well formed and keys the record; a non-empty id is kept. The cookie
      carries the encoded id and is set only when the upsert and the encoding succeed;
      an upsert or encoding error is returned unchanged. */
  lemma SaveWithMaxAge(c: Config, docs: Docs, name: string, id: string, values: Values,
                       options: Options, newId: ObjectId, now: int, f: Faults)
    requires options.maxAge >= 0
    ensures var o := SaveSpec(c, docs, name, id, values, options, newId, now, f);
      var u := UpsertSpec(c, docs, o.id, name, values, now, f);
      var t := c.codecs.encode(name, IdPayload(o.id));
      && o.id == (if id == "" then Hex(newId) else id)
      && (id == "" ==> IsObjectIdHex(o.id) && ObjectIdHex(o.id) == newId)
      && o.docs == u.docs
      && (o.err.None? <==> u.err.None? && t.Ok?)
      && (o.err.None? ==> o.token == Some(Cookie(name, t.value, options)))
      && (u.err.Some? ==> o.err == u.err)
      && (u.err.None? && t.Err? ==> o.err == Some(t.error) && o.token == None)
  {
    if id == "" {
      GeneratedIdRoundTrip(newId);
    }
  }

  /** A save followed by a request carrying the cookie it set gives back a loaded
      session with the same id and values. */
  lemma SaveThenNewRestores(c: Config, docs: Docs, name: string, id: string, values: Values,
                            options: Options, newId: ObjectId, t1: int, t2: int, f: Faults)
    requires RoundTrips(c.codecs)
    requires options.maxAge >= 0
    requires SaveSpec(c, docs, name, id, values, options, newId, t1, f).err.None?
    ensures var s := SaveSpec(c, docs, name, id, values, options, newId, t1, f);
      var o := NewSpec(c, s.docs, Request(map[name := s.token.value.value]), name, t2, NoFaults);
      o.err.None? && !o.isNew && o.id == s.id && o.values == values
  {
  }

  /** After a save with a negative MaxAge, any earlier cookie that decodes to the
      deleted id finds no record: the session is new again and the not-found error is
      returned. A request without the cookie gets an empty new session. */
  lemma DeleteThenNew(c: Config, docs: Docs, name: string, id: string, values: Values,
                      options: Options, newId: ObjectId, t1: int, t2: int, f: Faults, token: string)
    requires options.maxAge < 0
    requires SaveSpec(c, docs, name, id, values, options, newId, t1, f).err.None?
    requires c.codecs.decode(name, token) == Ok(IdPayload(id))
    ensures var s := SaveSpec(c, docs, name, id, values, options, newId, t1, f);
      var o := NewSpec(c, s.docs, Request(map[name := token]), name, t2, NoFaults);
      && o.isNew && o.err == Some(ErrNotFound) && o.values == map[] && o.docs == s.docs
      && NewSpec(c, s.docs, Request(map[]), name, t2, NoFaults) == NewOutcome(None, s.docs, "", map[], true)
  {
  }
}
