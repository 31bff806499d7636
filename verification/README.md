# files_manager request handlers, modelled in Dafny

This project models the decision logic and the store updates of three request
handlers of a small file-storage backend:

- **login / logout** (`AuthController.getConnect`, `getDisconnect`): the
  Authorization header carries `<scheme> <base64(email:password)>`; a user
  matching the email and the SHA-1 digest of the password gets a session, the
  key `auth_<token>` holding the user's id for 24 hours. Logout deletes the
  key of the `x-token` header.
- **registration** (`UsersController.postNew`): email, then password, must be
  present; an email already registered is refused; the user is stored with
  the password's digest and a fresh id.
- **upload** (`FilesController.postUpload`): the session is resolved, then
  `name`, `type` and `data` are checked in that order, then the parent (the
  number 0 is the root; anything else must be an existing folder); a folder
  record is inserted as is, while a file or image has its content written to
  the storage area first and its record, pointing at that content, inserted
  after.

The stores are abstract: the session store is a map from key to
`(value, ttl)` (`Redis.Store`), a document collection is the sequence of its
documents in insertion order with `findOne` returning the first match
(`Db.Collection`), and the storage area is a set of directories and a map from
path to bytes (`Disk.Volume`). Each handler is written three ways: a pure
check function (what the chain of early returns decides), a pure function
giving the response and the stores afterwards, and a method that performs the
steps against the store objects and is proved to agree with that function.
The properties are lemmas about the functions.

Library primitives are parameters with no properties assumed: the SHA-1
digest (`hash`), base64 decoding of the credential word (`decode`), the
content conversion `Buffer.from(data, 'base64')` and the id conversion
`ObjectID(...)` (both return nothing when the library call throws), the
`uuidv4()` values drawn (`token`, `id`, `env.uuid`), the id `insertOne` assigns
(`env.newId`) and the `FOLDER_PATH` environment variable.

Request-body members are JSON values (`Values.Json`) with JavaScript
truthiness, so `0`, `""`, `false`, `null` and a missing member are all
"missing", exactly as the handlers' `!x` tests treat them; headers are
optional strings, empty counting as missing.

## Model

The query and lookup helpers `Db.WithId`, `Db.WithEmail`, `Db.WithLogin`,
`Files.IsFolder` and `Auth.HeaderText` have no rows of their own: they build the
queries of controllers/FilesController.js:35-39, controllers/UsersController.js:12
and controllers/AuthController.js:23, and the `|| ''` of
controllers/AuthController.js:8, and the contracts of the members that use them
state what they do.

| member | source | states |
|---|---|---|
| `Text.Split` | controllers/AuthController.js:9 | `split` on one character gives separator-free pieces, one more than there are separators, that join back to the input |
| `Text.SplitJoin` | controllers/AuthController.js:16 | splitting the join of separator-free pieces gives the pieces back (the other round trip) |
| `Text.SplitFirstTwo` | controllers/AuthController.js:9 | a string that starts with two separator-free pieces followed by nothing or a separator splits into those two pieces first |
| `Text.FirstTwoOfSplit` | controllers/AuthController.js:16 | conversely a string with two or more pieces is its first two pieces, a separator, and nothing or a separator-led tail |
| `Db.Find` | controllers/UsersController.js:12 | `findOne` finds the first document the query matches, and finds nothing only when no document matches |
| `Db.FindAppend` | controllers/FilesController.js:35 | appending a document never changes what a query finds among the earlier ones |
| `Db.Collection.FindOne` | controllers/UsersController.js:12 | `findOne` returns the first matching document, nothing exactly when none matches |
| `Db.Collection.InsertOne` | controllers/UsersController.js:23 | `insertOne` appends the document and changes nothing else |
| `Redis.Store.Get` | utils/redis.js:15-21 | `get` returns the value held under the key, nothing when the key holds nothing |
| `Redis.Store.SetEx` | utils/redis.js:23-25 | `set` stores the value with its lifetime under the key, replacing what it held, other keys untouched |
| `Redis.Store.Del` | controllers/AuthController.js:51 | `del` removes that key and keeps every other |
| `Disk.Volume.Exists` | controllers/FilesController.js:52 | `existsSync` on the storage root tells whether that directory exists |
| `Disk.Volume.MakeDirectory` | controllers/FilesController.js:53 | `mkdirSync` adds the directory and writes no content |
| `Disk.Volume.WriteFile` | controllers/FilesController.js:57 | `writeFileSync` makes the path hold the content, other paths untouched |
| `Auth.SessionKey` | controllers/AuthController.js:30 | the key is `auth_` followed by the token, from which the token is recovered by dropping the prefix |
| `Auth.SessionUser` | controllers/FilesController.js:13-22 | a missing or empty token resolves to nothing; a token resolves to a user exactly when its key is held with a non-empty id, and then to that id (an empty stored id is no session) |
| `Auth.SessionKeyInjective` | controllers/AuthController.js:30 | two tokens give the same session key exactly when they are the same token |
| `Auth.Credentials` | controllers/AuthController.js:8-20 | any credentials found have a non-empty email and password, neither containing `:` |
| `Auth.CredentialsOfHeader` | controllers/AuthController.js:8-20 | whatever the first word, a header `<word> <cred>[ ...]` whose `cred` decodes to `email:password[:...]` yields exactly that email and password |
| `Auth.CredentialsShape` | controllers/AuthController.js:8-20 | every credential found comes from a header of that shape (so a header with no second word, an empty one, or a decoding without a non-empty email and password gives none) |
| `Auth.Login` | controllers/AuthController.js:22-27 | a login finds a user exactly when some user matches both the email and the password digest, and the id returned is such a user's |
| `Auth.Connect` | controllers/AuthController.js:7-36 | login answers 401 with the sessions unchanged or 200 with the token; on 200 exactly the token's key is added, with the 24-hour lifetime, and every other entry is kept |
| `Auth.ConnectOutcomes` | controllers/AuthController.js:7-36 | login answers 200 exactly when the header carries credentials that some user matches on both email and password digest |
| `Auth.FailedLoginsAlike` | controllers/AuthController.js:22-27 | an unknown email and a wrong password both give the same 401 `Unauthorized`, sessions unchanged |
| `Auth.ConnectIssuesSession` | controllers/AuthController.js:29-35 | a successful login adds only `auth_<token>`, holding the user's id for 86400 s, and keeps every other entry; the token then resolves to that user and every other token resolves as before |
| `Auth.Disconnect` | controllers/AuthController.js:38-53 | logout answers 401 with the sessions unchanged or 204; it never adds a key nor changes a kept entry |
| `Auth.DisconnectRemovesOneKey` | controllers/AuthController.js:45-52 | logout of a live token answers 204 and removes exactly its key: one entry fewer, all others unchanged, the token no longer resolves, other tokens resolve as before |
| `Auth.DisconnectTwiceFails` | controllers/AuthController.js:39-49 | a missing or unresolved token gets 401 and deletes nothing, so a second logout with the same token gets 401 |
| `Auth.GetConnect` | controllers/AuthController.js:7-36 | the login handler's response and new session store are those of `Auth.Connect` |
| `Auth.GetDisconnect` | controllers/AuthController.js:38-53 | the logout handler's response and new session store are those of `Auth.Disconnect` |
| `Users.Rejection` | controllers/UsersController.js:9-13 | `Missing email` exactly when the email is falsy; `Missing password` exactly when the email is present and the password falsy; `Already exists` exactly when both are present and some user has that email; accepted otherwise |
| `Users.Register` | controllers/UsersController.js:6-26 | registration answers 400 and leaves the users as they were, or 201 and appends exactly the user with the drawn id, the email and the password's digest |
| `Users.RegisterOutcomes` | controllers/UsersController.js:9-25 | a refused registration answers 400 and changes nothing; an accepted one appends exactly one user holding the drawn id, the email and the password's digest, and answers 201 with that email and id |
| `Users.RegisterKeepsEmailsUnique` | controllers/UsersController.js:12-23 | if no two users share an email before a registration, none do after |
| `Users.RegisterKeepsIdsUnique` | controllers/UsersController.js:17-23 | when the drawn id is one no user has, ids stay unique after a registration |
| `Users.RegisterTwice` | controllers/UsersController.js:12-13 | registering an email succeeds once and the second registration with it gets `Already exists` and changes nothing |
| `Users.PostNew` | controllers/UsersController.js:6-26 | the registration handler's response and new collection are those of `Users.Register` |
| `Files.ParentIdOf` | controllers/FilesController.js:11 | a missing `parentId` is the number 0; any value sent, even `null`, is kept |
| `Files.IsPublicOf` | controllers/FilesController.js:11 | a missing `isPublic` is false; any value sent is kept |
| `Files.StorageRoot` | controllers/FilesController.js:51 | the storage root is `FOLDER_PATH` when set and non-empty, otherwise `/tmp/files_manager`; never empty |
| `Files.BlobPath` | controllers/FilesController.js:55 | the content path is the storage root, a `/`, and the uuid |
| `Files.BlobPathInjective` | controllers/FilesController.js:55 | under one storage root, two uploads share a content path exactly when they drew the same uuid |
| `Files.KindOf` | controllers/FilesController.js:27-29 | a type is accepted exactly when it is one of the strings "folder", "file", "image", and names that kind |
| `Files.ParentCheck` | controllers/FilesController.js:34-42 | only the number 0 (also the default when `parentId` is missing) skips the lookup; an id that cannot be converted gives 500, one naming no record `Parent not found`, one naming a non-folder `Parent is not a folder`; the parent's owner plays no part |
| `Files.UploadCheck` | controllers/FilesController.js:13-42 | 401 exactly when the token resolves to no user, before any body member; then `Missing name`, `Missing type`, `Missing data` (file and image only) in that order, then exactly the parent check's error (500, `Parent not found` or `Parent is not a folder`); an accepted upload carries the session's user, the kind and the parent |
| `Files.NewRecord` | controllers/FilesController.js:46-66 | the inserted record has the new id, the owner, the supplied name, kind and parent, `isPublic` with its default, and a local path (the content path) exactly when it is not a folder |
| `Files.Created` | controllers/FilesController.js:69-76 | the 201 answer carries the new id, the session's user id and `name`, `type`, `isPublic`, `parentId` as supplied (with their defaults) |
| `Files.Persist` | controllers/FilesController.js:44-67 | an accepted upload answers 201 and appends one record, whose local path (if any) names stored content, or answers 500 and appends none; a folder writes no content and makes no directory; a file or image adds only the storage root to the directories and only its content path to the content |
| `Files.Upload` | controllers/FilesController.js:8-83 | an upload answers 201, 400, 401 or 500; 201 appends exactly one record and keeps every earlier one in place, any other answer appends none |
| `Files.UploadNeedsSession` | controllers/FilesController.js:13-22 | without a resolving token the answer is 401 whatever the body, and nothing changes |
| `Files.RejectedUploadChangesNothing` | controllers/FilesController.js:13-42 | an upload that fails a check answers 400, 401 or 500 with that check's error and leaves records, directories and content as they were |
| `Files.UploadEffects` | controllers/FilesController.js:44-81 | success inserts exactly one record, owned by the session's user, with the supplied name and kind, `isPublic` defaulting to false, no local path for a folder and root + `/` + uuid for a file or image whose content was written there, and answers 201 echoing the supplied members; a folder leaves content and directories alone, a file or image adds only the storage root and its content; a failure inserts no record, adds at most the storage root and leaves at most the new content behind |
| `Files.ParentOwnerIgnored` | controllers/FilesController.js:34-42 | changing the owner of any record does not change the outcome of the parent check |
| `Files.UploadKeepsWellFormed` | controllers/FilesController.js:44-67 | every upload keeps the record invariants: folders have no local path and files and images have one, every local path names stored content, every parent is a folder |
| `Files.UploadKeepsIdsUnique` | controllers/FilesController.js:59-68 | when the id the insert assigns is one no record has, record ids stay unique after an upload |
| `Files.UnconvertibleOwnerCannotUpload` | controllers/FilesController.js:55-62 | when the session's user id does not convert to an object id, an upload that passes every check answers 500 with no record, and a file or image leaves its content stored |
| `Files.PostUpload` | controllers/FilesController.js:8-83 | the upload handler's response, records, directories and content are those of `Files.Upload` |

## Left out

- Response shaping and transport: the handlers' results are `(status, body)`
  values; Express request and response objects, `console` logging and
  async scheduling are not modelled (each handler is a plain sequence of steps).
- Session expiry: the 86400-second lifetime is recorded with each entry, but
  time passing and keys expiring are the store's business and are not modelled.
- A session store `get` that errors reads as nothing, as the client wrapper
  resolves it; other store failures (a write that fails, a database that is
  down) are not modelled, nor is `fs` failing on a path.
- `redisClient.del` is used by logout but utils/redis.js defines no `del`;
  the model takes it to be the store's key deletion. Likewise
  `dbClient.files` is used by upload but utils/db.js never assigns it; the
  model takes it to be the `files` collection. Registration reads through
  `dbClient.users` and writes through `dbClient.db.collection('users')`: both
  are the one users collection here.
- The library primitives (SHA-1, base64 decoding, `Buffer.from`, `ObjectID`,
  `uuidv4`) are parameters with no properties assumed: nothing is proved that
  depends on SHA-1 being one-way or on uuids being unique, and the content of
  a written blob is whatever the decoding returns. In particular whether
  `ObjectID` accepts the 36-character uuid ids that registration assigns is
  left to the parameter: the object-id conversion takes 12-byte or 24-hex-digit
  strings, and when it rejects the session's user id every upload that passes
  the checks answers 500 and a file or image leaves its content behind
  (`Files.UnconvertibleOwnerCannotUpload`). The model keeps the handlers as
  they are rather than choosing between changing the ids registration draws
  and dropping the conversion at upload.
- Users.Register, Files.Upload: neither rejects a drawn id that is already
  in use, as the document store would reject a duplicate `_id` (an error
  `postNew` does not catch and `postUpload` would answer with 500); ids are
  proved unique only under the assumption that the drawn id is fresh
  (`Users.RegisterKeepsIdsUnique`, `Files.UploadKeepsIdsUnique`).
- JSON numbers are integers here; fractional numbers and `NaN` are not modelled.
  Object- and array-valued members are compared as whole values, so query
  operators smuggled into a member are not modelled.
- `existsSync` is modelled for directories only: a storage root occupied by a
  plain file is not modelled, and `mkdirSync` records the root itself, not
  the ancestors a recursive creation also makes.
- Utility parts of utils/db.js and utils/redis.js (connection setup,
  `isAlive`, `nbUsers`, `nbFiles`) and the other file operations of the
  application (show, list, publish, download) are not part of this model.
