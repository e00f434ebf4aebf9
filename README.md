# mongostore session lifecycle, modelled in Dafny

The repository is a MongoDB-backed store for gorilla sessions. A session's value
map is signed by a secure-cookie codec (and encrypted when a block key is
given) and kept in one MongoDB document, keyed by a 12-byte ObjectId. The client holds only the encoded id, in a
cookie. The repository carries two variants of the store that cannot be built
together, and each is modelled as its own module:

- `AccessTimeStore` models `mongostore.go`. Records carry `lastAccessed`. With
  `autoUpdateTime`, every `load` that finds the record rewrites that time. `New` returns token-decode
  and load errors to the caller.
- `ModifiedTimeStore` models `store.go`. Records carry `modified`, and `load`
  never writes. `New` returns a token-decode error but drops every load error.

Both modules rest on two shared ones:

- `ObjectIds`: the hex form of an ObjectId. `IsObjectIdHex` is the shape check
  (24 hex digits, either case). `ObjectIdHex` gives the bytes a string denotes.
  `Hex` writes a generated id out. Lemmas prove that hex decoding undoes
  encoding, and that two accepted strings name the same record exactly when they
  agree up to case.
- `Environment`: the collaborators.
  - The codec chain is a pair of total functions `encode` and `decode` that may
    fail. The law `decode(encode(x)) == x` is the predicate `RoundTrips`, which
    the round-trip lemmas require.
  - The MongoDB collection is the class `Collection`. Its `docs` map goes from
    ObjectId to record. `FindId`, `UpdateId`, `UpsertId` and `RemoveId` each take
    an injected fault; a faulty call returns that error and changes nothing. A
    ghost counter `calls` records driver calls.
  - The session object is the class `Session` (gorilla's `sessions.Session`).
  - The request is the set of cookies it carries. The response is the class
    `Response`, where `SetToken` appends one cookie.

Each store is a class `MongoStore` whose methods (`New`, `Save`, `Load`,
`Upsert`, `Delete`) update the session, the response and the collection in
place. Each method's postcondition ties the new state to a pure function
(`NewSpec`, `SaveSpec`, `LoadSpec`, `UpsertSpec`, `DeleteSpec`). The lemmas state
the store's promises about those functions.

Three things the real code takes from outside become parameters:

- `now: int` stands for the wall clock.
- `newId: ObjectId` stands for `bson.NewObjectId()`.
- `f: Faults` stands for driver failures.

## Model

| member | source | states |
|---|---|---|
| `ObjectIds.IsObjectIdHex` | mongostore.go:151 | the id check ignores case: a string passes iff it has 24 characters and lower-cases to lower-case hex digits |
| `ObjectIds.ObjectIdHex` | mongostore.go:163 | the key an accepted string denotes, written back out in hex, is that string lower-cased |
| `ObjectIds.Hex` | mongostore.go:131 | the hex form of n bytes has 2n characters, all lower-case hex digits |
| `ObjectIds.Unhex` | mongostore.go:211 | decoding 2n hex digits gives n bytes |
| `ObjectIds.UnhexHex` | mongostore.go:130-132 | decoding the hex form of any byte string gives that byte string back |
| `ObjectIds.HexUnhex` | mongostore.go:163 | re-encoding decoded hex gives the original string lower-cased |
| `ObjectIds.GeneratedIdRoundTrip` | store.go:119-121 | a generated id's hex form passes IsObjectIdHex and denotes the generated bytes |
| `ObjectIds.SameObjectId` | store.go:188 | two accepted id strings denote the same document key iff they are equal up to case |
| `Environment.DecodeId` | mongostore.go:101 | a token decodes to an id only when the codec yields an id payload; a codec error is passed through, a value-map payload is a type mismatch |
| `Environment.DecodeValues` | mongostore.go:177 | record data decodes to values only when the codec yields a value-map payload; a codec error is passed through, an id payload is a type mismatch |
| `Environment.GetToken` | token.go:19-28 | a token exists iff the request has a cookie of that name; otherwise the error is "no cookie" |
| `Environment.Response.SetToken` | token.go:31-33 | setting a token adds exactly one cookie with that name, value and options |
| `Environment.Session.constructor` | mongostore.go:84 | a new gorilla session has the name, an empty id, empty values and zero options; the `IsNew` flag is left to `New` |
| `Environment.Collection.FindId` | mongostore.go:163 | find returns the stored document, or not-found, or the injected error, and writes nothing |
| `Environment.Collection.UpdateId` | mongostore.go:172 | update replaces an existing document; a missing id gives not-found, a fault changes nothing |
| `Environment.Collection.UpsertId` | mongostore.go:221 | upsert inserts or replaces under the id; a fault changes nothing |
| `Environment.Collection.RemoveId` | mongostore.go:239 | remove deletes an existing document; a missing id gives not-found, a fault changes nothing |
| `Environment.RemoveSpec` | store.go:217 | removal succeeds iff there is no fault and the id is present; then only that key goes; a fault is returned unchanged, a missing id gives not-found |
| `Environment.DeleteSpec` | mongostore.go:228-240 | delete refuses a malformed id with ErrInvalidID; otherwise it removes just that key, and without a fault the key is absent afterwards; the driver fault, or not-found for a missing id, is returned unchanged |
| `Environment.SessionOptions` | mongostore.go:86-89 | a new session's options copy only Path and MaxAge from the store defaults |
| `AccessTimeStore.AccessTime` | mongostore.go:190-201 | the stored time is the time under "lastAccessed"; any other value there is ErrInvalidAccessTime; without one it is now |
| `AccessTimeStore.UpsertSpec` | mongostore.go:184-226 | a failed upsert leaves the collection unchanged; a successful one adds only the id's key, keeps every other record, and stores data that decodes to the session's values |
| `AccessTimeStore.LoadSpec` | mongostore.go:149-182 | load never adds or removes records or changes their data; without autoUpdateTime it writes nothing; its values are the decoded data of the id's record |
| `AccessTimeStore.NewSpec` | mongostore.go:82-113 | a session that stays new has no values; a loaded session comes with no error |
| `AccessTimeStore.SaveSpec` | mongostore.go:116-147 | a failed save sets no cookie; a successful one sets one cookie under the session's name with its options; a non-empty id is kept |
| `AccessTimeStore.MongoStore.constructor` | mongostore.go:48-74 | the store keeps the codecs, options, autoUpdateTime flag and collection it is given |
| `AccessTimeStore.MongoStore.New` | mongostore.go:82-113 | New gives a fresh session with the reduced options, and its error, id, values, flag and collection are those of NewSpec |
| `AccessTimeStore.MongoStore.Save` | mongostore.go:116-147 | Save's error, collection, session id and cookies (old ones plus at most one) are those of SaveSpec |
| `AccessTimeStore.MongoStore.Load` | mongostore.go:149-182 | load changes only the session's values and the collection as LoadSpec says; a malformed id reaches no driver call |
| `AccessTimeStore.MongoStore.Upsert` | mongostore.go:184-226 | upsert changes the collection as UpsertSpec says; a malformed id reaches no driver call |
| `AccessTimeStore.MongoStore.Delete` | mongostore.go:228-240 | delete changes the collection as DeleteSpec says; a malformed id reaches no driver call |
| `AccessTimeStore.MalformedIdRejected` | mongostore.go:149-240 | load, upsert and delete return ErrInvalidID for any id that is not 24 hex digits and leave the collection unchanged |
| `AccessTimeStore.UpsertTimestamp` | mongostore.go:190-201 | a time under "lastAccessed" is stored; any other value there gives ErrInvalidAccessTime and writes nothing; with no such value, now is stored |
| `AccessTimeStore.UpsertStoresRecord` | mongostore.go:203-225 | upsert succeeds iff the id, timestamp, encoding and write all succeed; then the id maps to {encoded values, chosen time} and nothing else changes; otherwise the timestamp, encoding or write error is returned unchanged |
| `AccessTimeStore.UpsertIdempotent` | mongostore.go:210-225 | upserting the same input a second time leaves the collection as after the first (with the codec modelled as a deterministic function) |
| `AccessTimeStore.LoadMissing` | mongostore.go:163-165 | loading an id with no record returns the find error (not-found unless a fault is injected) and changes nothing |
| `AccessTimeStore.LoadResult` | mongostore.go:163-181 | for a well-formed id, a find fault is returned; for an existing record a failed access-time update is returned and nothing is loaded or changed; otherwise the result is the record's decoded data |
| `AccessTimeStore.LoadBumpsAccessTime` | mongostore.go:167-179 | with autoUpdateTime, a found record's lastAccessed becomes now and its data is kept; the bump stays even if decoding then fails |
| `AccessTimeStore.AccessTimeAdvances` | mongostore.go:167-175 | in access-time mode, two successive loads of an existing record at t1 < t2 leave t1, then t2, as the stored time, whether or not its data decodes |
| `AccessTimeStore.NewOutcomes` | mongostore.go:91-112 | no cookie gives a new, empty session and no error; a decode error is returned; after decoding, the session is loaded iff load succeeds, and a load error is returned with the session still new |
| `AccessTimeStore.SaveWithNegativeMaxAge` | mongostore.go:120-128 | a negative MaxAge deletes, then sets an empty cookie with the session's options; a delete failure is returned with no cookie; an empty id fails with ErrInvalidID |
| `AccessTimeStore.SaveWithMaxAge` | mongostore.go:130-146 | an empty id becomes the generated id (well formed, keying that ObjectId), others are kept; the encoded-id cookie is set iff upsert and encode succeed; an upsert or encode error is returned unchanged |
| `AccessTimeStore.SaveThenNewRestores` | mongostore_test.go:103-123 | after a successful save, a request with the issued cookie gives a loaded session with the same id and values |
| `AccessTimeStore.DeleteThenNew` | mongostore_test.go:136-148 | after a deleting save, any cookie that decodes to the deleted id gives a new empty session with not-found, and no cookie gives a new empty session with no error |
| `ModifiedTimeStore.ModifiedTime` | store.go:168-179 | the stored time is the time under "modified"; any other value there is the invalid-modified error; without one it is now |
| `ModifiedTimeStore.UpsertSpec` | store.go:162-204 | a failed upsert leaves the collection unchanged; a successful one adds only the id's key, keeps every other record, and stores data that decodes to the session's values |
| `ModifiedTimeStore.LoadSpec` | store.go:137-160 | a successful load means the id is well formed, its record exists, and the values are that record's decoded data |
| `ModifiedTimeStore.NewSpec` | store.go:74-104 | a session that stays new has no values; a loaded session comes with no error |
| `ModifiedTimeStore.SaveSpec` | store.go:107-135 | a failed save sets no cookie; a successful one sets one cookie under the session's name with its options; a non-empty id is kept |
| `ModifiedTimeStore.MongoStore.constructor` | store.go:39-66 | the store's default options carry only the given MaxAge; codecs and collection are kept |
| `ModifiedTimeStore.MongoStore.New` | store.go:74-104 | New gives a fresh session with the reduced options, its error, id, values and flag as NewSpec says, and writes nothing |
| `ModifiedTimeStore.MongoStore.Save` | store.go:107-135 | Save's error, collection, session id and cookies (old ones plus at most one) are those of SaveSpec |
| `ModifiedTimeStore.MongoStore.Load` | store.go:137-160 | load never changes the collection; it sets the values LoadSpec gives, or returns its error; a malformed id reaches no driver call |
| `ModifiedTimeStore.MongoStore.Upsert` | store.go:162-204 | upsert changes the collection as UpsertSpec says; a malformed id reaches no driver call |
| `ModifiedTimeStore.MongoStore.Delete` | store.go:206-218 | delete changes the collection as DeleteSpec says; a malformed id reaches no driver call |
| `ModifiedTimeStore.MalformedIdRejected` | store.go:137-218 | load, upsert and delete return ErrInvalidID for any id that is not 24 hex digits and leave the collection unchanged |
| `ModifiedTimeStore.UpsertTimestamp` | store.go:168-179 | a time under "modified" is stored; any other value there gives the invalid-modified error and writes nothing; with no such value, now is stored |
| `ModifiedTimeStore.UpsertStoresRecord` | store.go:181-203 | upsert succeeds iff the id, timestamp, encoding and write all succeed; then the id maps to {encoded values, chosen time} and nothing else changes; otherwise the timestamp, encoding or write error is returned unchanged |
| `ModifiedTimeStore.UpsertIdempotent` | store.go:187-203 | upserting the same input a second time leaves the collection as after the first (with the codec modelled as a deterministic function) |
| `ModifiedTimeStore.LoadResult` | store.go:149-157 | for an existing record, load returns the find fault, or else the record's decoded data, decode error included |
| `ModifiedTimeStore.LoadMissing` | store.go:148-152 | loading an id with no record returns the find error (not-found unless a fault is injected) |
| `ModifiedTimeStore.NewOutcomes` | store.go:83-103 | no cookie gives a new, empty session and no error; a decode error is returned; after decoding, the id stays, any load error is dropped, and the session is loaded iff load succeeds |
| `ModifiedTimeStore.NewErrorIsDecodeError` | store.go:87-103 | the only error New ever returns is the decode error of a cookie that is present |
| `ModifiedTimeStore.SaveWithNegativeMaxAge` | store.go:109-117 | a negative MaxAge deletes, then sets an empty cookie with the session's options; a delete failure is returned with no cookie; an empty id fails with ErrInvalidID |
| `ModifiedTimeStore.SaveWithMaxAge` | store.go:119-134 | an empty id becomes the generated id (well formed, keying that ObjectId), others are kept; the encoded-id cookie is set iff upsert and encode succeed; an upsert or encode error is returned unchanged |
| `ModifiedTimeStore.SaveThenNewRestores` | store.go:119-133 | after a successful save, a request with the issued cookie gives a loaded session with the same id and values |
| `ModifiedTimeStore.DeleteThenNew` | store.go:87-101 | after a deleting save, any cookie that decodes to the deleted id gives a new session that keeps the old id, has no values and no error; no cookie gives an empty new session |

## Left out

- `Get` in both files is left out. It goes through gorilla's per-request session registry, which is an external collaborator.
- Connection handling is left out: the `Copy`/`Close` of the driver session on every operation, and the reconnection this gives. This is network I/O. Driver failures are injected through `Faults` instead.
- The TTL index that both constructors may create (`EnsureIndex`) is left out. Expiry is done by the database, never by the store. The constructors take `ensureTTL` and ignore it.
- The secure-cookie codec is a pair of functions with a round-trip law. Its key pairs, HMAC and encryption, and its ordered search over codecs are not modelled. Neither is the gob serialisation of values.
- Flash messages and gob type registration are left out. Values are limited to strings, integers, booleans and times.
- The cookie transport (`CookieToken` and `net/http` cookies) is reduced to a map of request cookies and a list of cookies set on the response.
- Wall-clock time and ObjectId randomness are parameters (`now`, `newId`). UTC conversion is not modelled.
- Concurrent requests are not modelled. Every operation is one sequential call.
- `load` replaces the session's values with the decoded map. gob would merge the decoded map into the existing one, but `load` is only reached from `New`, where the map is still empty.
- Deleting an id that has no record is an error (not-found), not a no-op: `RemoveId` reports it and `delete` passes it on.
- A cookie that is present but does not decode makes `New` return the decode error, in both variants.
- AccessTimeStore.UpsertIdempotent: holds only because the codec is a deterministic function. The real secure-cookie encoding embeds a timestamp and, with an encryption key, a random IV, so a second upsert of the same values stores a different data string that decodes to the same values.
- ModifiedTimeStore.UpsertIdempotent: holds only because the codec is deterministic, for the same reason as in AccessTimeStore.
