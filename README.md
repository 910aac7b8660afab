# blog_app resource-mutation core, modelled in Dafny

blog_app is a small CRUD backend for users and posts, stored in MongoDB.
This project models its core:

- the entity types and their payloads: creation-payload validation, the
  e-mail pattern, the sparse change-sets of updates, and entity construction;
- the two stores, `MongoUserStore` and `MongoPostStore`. Each is a class over
  an in-memory collection (`map<ObjectId, User>`, `map<ObjectId, Post>`).
  Every store method changes that map as the MongoDB operator it issues
  would: `$set`, `$addToSet`, `$pull`, `InsertOne`, `DeleteOne`, `FindOne`
  and `Find`;
- the API's error taxonomy and the error handler's choice of status.

Modules, one per source file plus two shared ones:

| module | file | models |
|---|---|---|
| `Common` | common.dfy | Go strings as byte sequences, Option/Result, `%d` rendering |
| `Mongo` | mongo.dfy | `primitive.ObjectID`, `ObjectIDFromHex`, `ObjectID.Hex`, BSON change-set values, the `db.Map` filter |
| `UserTypes` | user_types.dfy | types/user.go |
| `PostTypes` | post_types.dfy | types/post.go |
| `UserStore` | user_store.dfy | db/user_store.go |
| `PostStore` | post_store.dfy | db/post_store.go |
| `ApiErrors` | api_errors.dfy | api/errors.go |

Conventions:

- A Go `string` is a `GoString`, a `seq<char>` in which each `char` stands
  for one byte. `|s|` is therefore Go's `len(s)`, which counts bytes.
- bcrypt is a function argument `hash: Hasher` that returns either a hash or
  an error. `time.Now()` is an argument `now`. The id the driver generates
  for an insert is an argument `generated`. The driver never generates the
  zero id, so `generated != Nil` is required.
- The caller's filter map is a `Filter` object. The stores overwrite its
  `_id` entry in place, as the Go code does.
- `primitive.ObjectIDFromHex` accepts exactly 24 hexadecimal digits, in
  either case. A string of another length gets the driver's `ErrInvalidHex`
  (`InvalidHex` here). A 24-character string with a character that is not a
  hexadecimal digit gets `encoding/hex`'s `InvalidByteError` for the first
  such character (`InvalidByte(c)` here). Either way the zero ObjectID comes
  back beside the error, and that is what callers get when they write
  `oid, _ :=`. The driver's source is not part of this model; the two errors
  follow the mongo-driver v1 package that db/user_store.go:6 imports.

## Model

| member | source | states |
|---|---|---|
| `Mongo.ObjectIdFromHex` | db/user_store.go:40-43 | an identifier parses iff it has exactly 24 hexadecimal digits; a wrong length is `InvalidHex`; a 24-character string with a bad character is `InvalidByte` of the first bad character |
| `Mongo.ParseReportsFirstBadChar` | db/user_store.go:40-43 | a 24-character string is rejected with exactly its first non-hexadecimal character |
| `Mongo.ParseErrorExamples` | db/user_store.go:40-43 | a 16-character string is `InvalidHex`; `0g23456789abcdefx123456f` is `InvalidByte('g')`, not `'x'` |
| `Mongo.IdOrNil` | db/post_store.go:38 | ignoring the parse error yields the parsed id for a well-formed string and the zero ObjectID for any other |
| `Mongo.HexRoundTrip` | db/user_store.go:86-90 | parsing the printed form of any ObjectID gives that ObjectID back |
| `Mongo.ParseRoundTrip` | db/user_store.go:86-90 | a lower-case identifier that parses is the printed form of its ObjectID |
| `UserTypes.ToBson` | types/user.go:25-39 | the change-set has `firstName`, `lastName` or `password` exactly when that field is non-empty, and no other key, never `fcmToken`; a password enters as its hash, or as null when hashing fails; an all-empty payload gives an empty change-set |
| `UserTypes.EmailMatcherCorrect` | types/user.go:66-69 | the hand-written matcher accepts exactly the language of `^[a-z0-9._%+\-]+@[a-z0-9.\-]+\.[a-z]{2,4}$` (both directions) |
| `UserTypes.EmailHasOneAt` | types/user.go:66-69 | an accepted address contains exactly one '@' |
| `UserTypes.EmailRejectsUpperCase` | types/user.go:66-69 | an upper-case letter anywhere makes the address invalid |
| `UserTypes.EmailRejectsSecondAt` | types/user.go:66-69 | a string with two '@' is rejected |
| `UserTypes.EmailAcceptedExamples` | types/user.go:67 | `a@b.com` is accepted |
| `UserTypes.EmailAcceptsDottedDomain` | types/user.go:67 | `a@b.co.uk` is accepted: the domain may contain dots, and only the last '.' starts the top-level part |
| `UserTypes.EmailRejectedExamples` | types/user.go:67 | `Jo@b.com` and `a@b@c.com` are rejected |
| `UserTypes.Validate` | types/user.go:49-64 | each of `firstName`, `lastName`, `password`, `email` is a key iff its own rule fails (lengths 2, 2, 7 bytes; the e-mail language); no other key appears; each message is the source's text; the map is empty iff all four rules hold |
| `Common.Decimal` | types/user.go:52 | `%d` renders a number as digits with no leading zero that spell exactly that number, so every length message states its minimum correctly |
| `UserTypes.PasswordMessage` | types/user.go:57-59 | the password message reads `password length should be at least 7 characters` |
| `UserTypes.SampleUserIsAccepted` | types/user.go:49-64 | a typical creation payload Jo/Do/a@b.com/longenough passes every rule |
| `UserTypes.NewUserFromParams` | types/user.go:81-94 | fails exactly when hashing fails, with the hashing error; otherwise copies names, e-mail and token, stores the hash as the password, no friends and the zero id |
| `PostTypes.ToBson` | types/post.go:34-41 | `updated_at = now` is always present; `content` is present iff the content is non-empty; no other key |
| `PostTypes.Validate` | types/post.go:42-50 | `content` is a key iff the content is shorter than 10 bytes, with the source's message; no other key; the author is not checked |
| `PostTypes.ContentMessage` | types/post.go:45-47 | the content message reads `content length should be at least 10 characters` |
| `PostTypes.NewPostFromParams` | types/post.go:51-59 | never fails; copies the content, sets `createdAt = now`, zero `updatedAt` and id, ignores the payload's `createdAt`; the author is the parsed id, or the zero id for a malformed string |
| `PostTypes.NewPostAuthorRoundTrip` | types/post.go:52 | a post created with the printed id of a user has that user as its author |
| `UserStore.UpdateUserEffect` | db/user_store.go:45-46 | an update changes only the matched user and only the fields supplied non-empty; the password becomes the hash, or "" when hashing fails; id, e-mail, token and friends stay; an absent id changes nothing |
| `UserStore.UpdateKeepsWellKeyed` | db/user_store.go:45-46 | `$set` keeps every user stored under its own id |
| `UserStore.AddToSet` | db/user_store.go:117 | `$addToSet`: afterwards the id is in the list; the list is unchanged if it was there, otherwise extended by it at the end; no duplicate is introduced |
| `UserStore.Pull` | db/user_store.go:137 | `$pull`: afterwards the id is absent; every other id is kept; a list without the id is unchanged; no duplicate is introduced |
| `UserStore.PullAppend` | db/user_store.go:137 | `$pull` acts element by element on a concatenation, so the remaining entries keep their order |
| `UserStore.PullUndoesAddToSet` | db/user_store.go:117-139 | removing a friend just added to a list that lacked it restores the list |
| `UserStore.AddFriendEdges` | db/user_store.go:105-124 | adding a friend adds exactly the directed edge subject→friend when the subject is stored, and nothing otherwise |
| `UserStore.RemoveFriendEdges` | db/user_store.go:125-144 | removing a friend removes exactly the edge subject→friend and nothing else |
| `UserStore.AddFriendIdempotent` | db/user_store.go:117-119 | adding the same friend twice leaves the collection as adding it once |
| `UserStore.FriendOpsNotSymmetric` | db/user_store.go:115-139 | neither friend operation changes the reverse edge friend→subject |
| `UserStore.FriendOpsKeepListsDistinct` | db/user_store.go:105-144 | if no friend list has duplicates before, none has after either friend operation |
| `UserStore.MongoUserStore.constructor` | db/user_store.go:31-37 | a new store works on the `users` collection as it already is: any collection whose users are stored under their own ids, including one holding a user under the zero id written by another client |
| `UserStore.MongoUserStore.UpdateUser` | db/user_store.go:39-51 | a malformed filter id returns its parse error and changes nothing; otherwise the filter's `_id` becomes the parsed id and the change-set is `$set` on the matching user; no match is no error |
| `UserStore.MongoUserStore.DeleteUser` | db/user_store.go:53-63 | a malformed id returns its parse error and changes nothing; otherwise the matching user, if any, is removed and no error is reported |
| `UserStore.MongoUserStore.InsertUser` | db/user_store.go:65-72 | the user is stored and returned with the store-assigned id and every other field untouched; an id already stored is a duplicate-key error that stores nothing |
| `UserStore.MongoUserStore.GetUsers` | db/user_store.go:74-84 | returns every stored user, each once |
| `UserStore.MongoUserStore.GetUser` | db/user_store.go:86-96 | a malformed id returns its parse error, a missing one `NoDocuments`; otherwise the stored user |
| `UserStore.MongoUserStore.GetUserByObjectID` | db/user_store.go:97-104 | the stored user with that id, or `NoDocuments` |
| `UserStore.MongoUserStore.AddFriend` | db/user_store.go:105-124 | a malformed subject id returns its parse error, then a malformed friend id its own, before any change; otherwise `$addToSet` on the subject only; afterwards the friend is on a stored subject's list |
| `UserStore.MongoUserStore.RemoveFriend` | db/user_store.go:125-144 | a malformed subject id returns its parse error, then a malformed friend id its own, before any change; otherwise `$pull` on the subject only; afterwards the friend is not on the subject's list |
| `UserStore.InsertThenGet` | db/user_store.go:65-96 | fetching an inserted user by the printed form of its new id returns exactly that user |
| `PostStore.UpdatePostEffect` | db/post_store.go:41-42 | an update changes only the matched post; its content only when supplied non-empty; `updatedAt` always becomes `now`; id, author and `createdAt` stay; an absent id changes nothing |
| `PostStore.UpdateAllowsShortContent` | types/post.go:34-41 | no length rule guards an update: content shorter than 10 bytes is stored as given |
| `PostStore.MalformedIdTouchesNothing` | db/post_store.go:38-40 | a malformed id becomes the zero ObjectID; when no stored post has the zero id, as with every post `InsertPost` stores, updating or deleting by it changes nothing |
| `PostStore.MalformedIdHitsZeroIdPost` | db/post_store.go:37-57 | when a post is stored under the zero id, a malformed id reaches it: an update rewrites it and a delete removes it |
| `PostStore.MongoPostStore.constructor` | db/post_store.go:29-35 | a new store works on the `posts` collection as it already is: any collection whose posts are stored under their own ids, including one holding a post under the zero id written by another client |
| `PostStore.MongoPostStore.UpdatePost` | db/post_store.go:37-47 | the parse error is ignored; the filter's `_id` becomes the parsed or zero id; the change-set is `$set` on the matching post; never an error |
| `PostStore.MongoPostStore.DeletePost` | db/post_store.go:49-57 | the parse error and the delete count are ignored; at most the one post with the parsed or zero id is removed |
| `PostStore.MongoPostStore.InsertPost` | db/post_store.go:59-66 | the post is stored and returned with the store-assigned id and every other field untouched; an id already stored is a duplicate-key error |
| `PostStore.MongoPostStore.GetPosts` | db/post_store.go:68-78 | returns every stored post, each once, with no filter |
| `PostStore.MongoPostStore.GetPostByID` | db/post_store.go:80-90 | a malformed id returns its parse error, a missing one `NoDocuments`; otherwise the stored post |
| `PostStore.MongoPostStore.GetPostsByUserID` | db/post_store.go:91-106 | a malformed id returns its parse error; otherwise exactly the stored posts whose author is that id, each once |
| `ApiErrors.NewError` | api/errors.go:25-30 | keeps code and message, and `Error()` of the result is the message |
| `ApiErrors.ErrNotResourceNotFound` | api/errors.go:32-37 | code 404, message `"resource not found -> "` followed by the inner error's text |
| `ApiErrors.ErrBadRequest` | api/errors.go:39-44 | code 400, message `"invalid JSON request -> "` followed by the inner error's text |
| `ApiErrors.WrappersKeepInnerText` | api/errors.go:32-44 | the inner text is recoverable behind each prefix, so each constructor is injective on error texts, and a not-found error never equals a bad-request error |
| `ApiErrors.ErrorHandler` | api/errors.go:8-14 | an `Error` value is answered with its own code and unchanged body; any other error with 500 and its `Error()` text; the status always equals the body's code |
| `ApiErrors.WrappedErrorStatus` | api/errors.go:8-44 | wrapped not-found errors reach the client as 404 and wrapped bad-request errors as 400 |

## Left out

- The HTTP handlers, routing, JSON parsing and `main.go` are not part of this model. The handlers only choose which error constructor wraps a store failure.
- The push-notification fan-out after post creation and the Firebase client are not modelled. They are external round-trips.
- bcrypt is an uninterpreted `Hasher` argument. Its salt makes two real hashes of one password differ; the model does not capture that and proves nothing about irreversibility.
- Driver failures (network, cancellation, cursor and decoding errors) are not modelled. The in-memory collection never fails. As a result, the store methods return only the errors listed in `DbError`, and the `panic` in `RemoveFriend` (db/user_store.go:141) cannot be reached in the model.
- The filter is modelled holding only `_id`, the one key the handlers put in it.
- Stored documents are kept as decoded `User`/`Post` records, not as BSON. A password set by `UpdateUser` is stored as BSON binary (or null when hashing failed). The model records the bytes (or "") that decoding into the string field yields.
- Times are opaque instants. BSON's millisecond truncation of stored datetimes is not modelled.
- `UserStore.MongoUserStore.InsertUser`: the Go method also writes the id into the caller's `*User`. The model returns the updated value instead, so aliasing of that pointer is not captured. The same holds for `PostStore.MongoPostStore.InsertPost` and its `*Post`.
- `UserStore.MongoUserStore.GetUsers`: returns the users in no particular order. The driver's natural order is not modelled. The same holds for `PostStore.MongoPostStore.GetPosts` and `PostStore.MongoPostStore.GetPostsByUserID`.
- The handlers declare a 404 answer for `PUT /user/{id}` and `PUT /post/{id}` (api/user_handler.go:29, api/post_handler.go:35). `UpdateUser` and `UpdatePost` discard `UpdateOne`'s match count (db/user_store.go:46, db/post_store.go:42), so the model follows the code: an update that matches nothing is not an error.
