# W.A.K. accounts, favourites and friends in Dafny

This project models the account logic of the W.A.K. movie application. That
logic is spread across an Express server backed by a MongoDB `users`
collection and a React client. The model covers:

- **`UserModel`** (`user_model.dfy`): the user document and the collection.
  - The collection is a store keyed by username, plus an index from `_id` to username.
  - The `signup` and `login` statics, with their guard chains in order.
  - What Mongoose's `create` rejects for this schema.
  - The `addFavorite` and `removeFavorite` document methods. These change the
    hydrated document in place (`UserDocument`) and then `save` it.
- **`Server`** (`server.dfy`): the route handlers of `server/index.ts` that hold logic.
  - Token issue.
  - `POST /login` and `POST /signup`.
  - The three friend-request updates: `$addToSet` and `$pull` through
    `findOneAndUpdate`, which answers with the document as it was *before*.
  - The friend-request, friends and favourites listings.
  - The three favourites routes behind the auth guard.
- **`RequireAuth`** (`require_auth.dfy`): the `requireAuth` middleware.
  - Splitting the header on spaces.
  - The three 401 answers.
  - Setting `req.user` and calling `next` exactly once.
- **`AcceptFriend`** (`accept_friend_request.dfy`): the client's three-request
  accept protocol and what a failure part-way leaves behind. It also gives the
  per-pair states the friend routes move between: none, pending, half-friends
  and friends.
- **`AuthContext`** (`auth_context.dfy`): `authReducer` and `initialAuthState`.
- **`UseFavourites`** (`use_favourites.dfy`): the `useFavourites` hook. This is
  the local favourites mirror with its `loading` and `error` cells, plus the
  client's reading of the `isFavorite` answer.
- **`Lists`** (`lists.dfy`): the list operations the source relies on.
  - `indexOf`, `splice(i, 1)` and `filter`.
  - Mongo's `$addToSet` and `$pull`.
- **`Results`** (`results.dfy`): `Option` and `Result`.

Foreign code enters as function-valued parameters that the model never looks
inside:

- bcrypt's `hash` and `compare` (`UserModel.Bcrypt`).
- `validator.isEmail`.
- `jwt.sign` and `jwt.verify` with the server secret.
- The outcome of a client `fetch` or `axios` request.
- The salt from `bcrypt.genSalt`.

A thrown error is an `Err`/`Some` of an error datatype whose `Message` is the
thrown message. An HTTP answer is a `Server.Reply`: the status and the JSON body.

Three points where the model follows the code rather than the written description:

- A friend route naming an unknown user changes nothing. Because
  `findOneAndUpdate` resolves to `null`, it answers 200 with a `null` body, not an error.
- The third request of `acceptFriendRequest` (the decline) is not awaited. Its
  failure therefore never reaches the `catch`, and the call still resolves.
- The server's `isFavorite` tests the value `find` returned for truthiness. The
  client's `isFavourite` compares the message with `"Movie in favorites"`. The
  "not in" message is spelled `favourites`.

## Model

| member | source | states |
|---|---|---|
| Lists.IndexOf | server/src/models/userModel.ts:124-125 | `indexOf`: -1 exactly when the element is absent; otherwise the index holds it and no earlier index does |
| Lists.RemoveAt | server/src/models/userModel.ts:128 | `splice(i, 1)`: one shorter, the prefix before `i` and the suffix after it kept, the multiset loses exactly `s[i]` |
| Lists.AddToSet | server/index.ts:121-124 | `$addToSet`: the element is present afterwards, membership is the old one plus it, the list is unchanged if it was there and extended at the end otherwise, duplicate-freedom kept |
| Lists.Pull | server/index.ts:164-167 | `$pull`: the element is absent afterwards, every other element stays, duplicate-freedom kept |
| Lists.PullCount | server/index.ts:164-167 | `$pull` drops every copy of the element and keeps every other element exactly as often as it occurred |
| Lists.PullAbsent | server/index.ts:164-167 | pulling an element that is not there leaves the list unchanged |
| Lists.PullIdempotent | server/index.ts:164-167 | pulling twice is pulling once |
| Lists.PullAppend | client/src/Hooks/useFavourites.ts:89 | filtering distributes over concatenation, so the remaining ids keep their order |
| Lists.AddToSetIdempotent | server/index.ts:121-124 | adding to a set twice is adding once |
| Lists.RemoveFirstFromSet | server/src/models/userModel.ts:124-128 | in a duplicate-free list, removing the first occurrence removes the element entirely, keeps every other element, and keeps the list duplicate-free |
| Lists.AddThenRemove | server/src/models/userModel.ts:112-128 | pushing an absent element and splicing out its first occurrence gives back the list |
| UserModel.FindById | server/src/middleware/requireAuth.ts:40 | `findOne({ _id })`: a found account has that id and is the stored one; under a consistent index nothing is found exactly when no account has the id |
| UserModel.WithFavorites | server/src/models/userModel.ts:116 | `save()` of the favourites path: the same usernames, only that user's favourites replaced |
| UserModel.InsertWellFormed | server/src/models/userModel.ts:14-38 | inserting a new account under a free username, an unused email and the next id keeps the collection well formed |
| UserModel.RelistedWellFormed | server/src/models/userModel.ts:14-38 | changing only the lists of accounts, keeping them duplicate-free, keeps the collection well formed: both indexes still agree, ids stay below the counter, emails stay unique |
| UserModel.WithFavoritesWellFormed | server/src/models/userModel.ts:14-38 | saving a duplicate-free favourites list keeps the collection well formed: unique emails and usernames, ids indexed, lists duplicate-free |
| UserModel.SignupCheck | server/src/models/userModel.ts:59-71 | each signup refusal is given in both directions: all fields, email syntax, email in use (in that order), and acceptance exactly when none applies |
| UserModel.SignupValidatesBeforeLookup | server/src/models/userModel.ts:59-64 | the emptiness and syntax refusals do not depend on the collection |
| UserModel.CreateCheck | server/src/models/userModel.ts:14-38 | `create` succeeds exactly when email, username and password are present and neither email nor username is taken; otherwise a required-path or duplicate-key error |
| UserModel.Login | server/src/models/userModel.ts:82-105 | success exactly when both fields are present, the username exists and bcrypt accepts the password against the stored hash, returning that stored user; "All fields must be filled" and "Incorrect email" in both directions; no other error than the three |
| UserModel.LoginMessagesDistinct | server/src/models/userModel.ts:87-102 | the three login failures carry different messages |
| UserModel.SecondSignupConflicts | server/src/models/userModel.ts:66-71 | signing up again with a stored email is refused with "Email already in use" |
| UserModel.SignupThenLogin | server/src/models/userModel.ts:74-104 | after signup stores the hash, login with the same password succeeds and a password bcrypt rejects is refused with "Incorrect password" |
| UserModel.UserStore.Create | server/src/models/userModel.ts:78 | inserts the new document with a fresh id and empty lists, or fails with the store unchanged; the store invariant is kept |
| UserModel.UserStore.Signup | server/src/models/userModel.ts:51-79 | a guard failure gives its error with the store unchanged; success adds exactly one account under the next id, whose stored password is bcrypt's hash of the password with the salt; after the guards pass it succeeds exactly when the username is non-empty and free and the hash is non-empty, and otherwise fails with `create`'s error |
| UserModel.UserDocument.Hydrate | server/index.ts:229 | the document `findOne` hands out holds exactly the stored account's fields |
| UserModel.UserDocument.Save | server/src/models/userModel.ts:116 | writes the document's favourites back and keeps the collection well formed |
| UserModel.UserDocument.AddFavorite | server/src/models/userModel.ts:108-117 | an already present movie is refused with nothing changed; otherwise it is appended and saved |
| UserModel.UserDocument.RemoveFavorite | server/src/models/userModel.ts:120-130 | an absent movie is refused with nothing changed; otherwise its first occurrence is spliced out (so it is gone) and saved |
| Server.TokenClaims | server/index.ts:23-25 | the token carries the account id and a lifetime of three days (259200 s) |
| Server.TokenLifetime | server/index.ts:24 | a token is still valid one hour after issue and has expired four days after |
| Server.CreateToken | server/index.ts:23-25 | — (signs `TokenClaims(id)`; the claims are stated by `TokenClaims`) |
| Server.Lookup | server/index.ts:137 | `findOne({ username })`: found exactly when the username is stored, and then the stored account |
| Server.LoginReply | server/index.ts:51-64 | 200 with the username and a token for the stored id exactly when login succeeds; otherwise 400 with login's message |
| Server.SignupRoute | server/index.ts:66-76 | 200 with email, username and a token for the new id, the store gaining exactly the new account with the hashed password; once the guards pass, 200 exactly when `create` accepts; otherwise 400 with the store unchanged and the message of the guard or of `create` that refused |
| Server.AddFriendRequest | server/index.ts:121-124 | only the recipient's `friendsRequests` changes; the sender is in it afterwards; nothing changes when it already was or when the recipient does not exist |
| Server.Decline | server/index.ts:164-167 | only `me`'s `friendsRequests` changes; the other user is no longer in it and every other entry stays |
| Server.Accept | server/index.ts:183-186 | only `me`'s `friends` changes; the other user is in it afterwards with everything else kept; no change if already a friend |
| Server.AddFriendRequestIdempotent | server/index.ts:121-124 | sending the same request twice is the same as sending it once |
| Server.DeclineAbsent | server/index.ts:164-167 | declining a request that is not pending changes nothing |
| Server.DeclineIdempotent | server/index.ts:164-167 | declining twice is declining once |
| Server.AcceptIdempotent | server/index.ts:183-186 | accepting twice is accepting once |
| Server.AddFriendRoute | server/index.ts:115-131 | the collection becomes `AddFriendRequest` of the old one, still well formed; the answer is 200 with the recipient's old document, or `null` |
| Server.DeclineRoute | server/index.ts:158-174 | the collection becomes `Decline` of the old one, still well formed; 200 with the old document |
| Server.AcceptRoute | server/index.ts:177-193 | the collection becomes `Accept` of the old one, still well formed; 200 with the old document |
| Server.FriendRequestsReply | server/index.ts:134-143 | 200 with the stored requests exactly when the user exists; otherwise 500 with the null-read message |
| Server.FriendsReply | server/index.ts:196-205 | 200 with the stored friends exactly when the user exists; otherwise 500 |
| Server.FavoritesReply | server/index.ts:207-220 | 200 with the stored favourites of the named user exactly when that user exists; otherwise 500 |
| Server.AddFavoriteRoute | server/index.ts:222-237 | 404 when the authenticated id has no account; 400 "Movie already in favorites" with nothing changed; otherwise 200 with the movie appended to that user's favourites |
| Server.RemoveFavoriteRoute | server/index.ts:239-254 | 404 for no account; 400 "Movie not found in favorites" with nothing changed; otherwise 200 with the first occurrence spliced out |
| Server.Find | server/index.ts:270-272 | `find` yields a value exactly when the id is stored, and that value is the id |
| Server.IsFavoriteReply | server/index.ts:256-284 | 404 exactly when the account is missing; otherwise 200 with "Movie in favorites" exactly when the (non-empty) id is stored, else "Movie not in favourites" |
| Server.FindAfterSave | server/src/models/userModel.ts:116 | after a save of the favourites the id still finds the same account, now holding the saved list |
| Server.AddedIsFavorite | server/index.ts:256-278 | once a movie is saved in the favourites, the membership route answers "Movie in favorites" |
| Server.AddThenRemoveSaved | server/src/models/userModel.ts:108-130 | saving an added movie and then saving its removal gives back the collection |
| Server.FavoriteRoundTrip | server/index.ts:222-284 | add, ask, remove, ask: the answers are "in" then "not in", and the collection is back to where it started |
| RequireAuth.Fields | server/src/middleware/requireAuth.ts:33 | `split(" ")` gives at least one field, and exactly one when there is no space |
| RequireAuth.JoinFields | server/src/middleware/requireAuth.ts:33 | joining the fields with single spaces gives back the header |
| RequireAuth.FieldsJoin | server/src/middleware/requireAuth.ts:33 | splitting space-free fields joined with spaces gives back the fields |
| RequireAuth.BearerToken | server/src/middleware/requireAuth.ts:33 | `split(" ")[1]` is `undefined` exactly when the header has no space |
| RequireAuth.BearerTokenOf | server/src/middleware/requireAuth.ts:33 | for "<scheme> <token>" the second field is the token |
| RequireAuth.TokenOf | server/src/middleware/requireAuth.ts:33-37 | the token handed to `jwt.verify` is the second field and is non-empty; none exactly when that field is missing or empty |
| RequireAuth.Decide | server/src/middleware/requireAuth.ts:19-57 | "Authorization token required" exactly for a missing or empty header; "User not found" exactly when the token verified to an id with no account; proceeding as `id` exactly when the token verifies to `id` and that account exists |
| RequireAuth.UnknownUserRejected | server/src/middleware/requireAuth.ts:40-45 | a valid token for a deleted or unknown user is answered "User not found" |
| RequireAuth.BadTokenRejected | server/src/middleware/requireAuth.ts:35-56 | a token that does not verify is answered "Request is not authorized" |
| RequireAuth.MissingTokenRejected | server/src/middleware/requireAuth.ts:33-56 | a header without a space has no token and is answered "Request is not authorized" |
| RequireAuth.AuthRequest.constructor | server/src/middleware/requireAuth.ts:11-16 | a request carries its `authorization` header and no `user` until the guard sets one |
| RequireAuth.Guard | server/src/middleware/requireAuth.ts:19-57 | either a 401 answer is sent or `next` runs, never both and `next` at most once; the answer is the decision's; on success `req.user` holds the verified id |
| AcceptFriend.Protocol | client/src/Functions/acceptFriendRequest.ts:17-31 | — (the collection after the three requests succeed; stated by `ProtocolFriends`) |
| AcceptFriend.AcceptFriendRequest | client/src/Functions/acceptFriendRequest.ts:14-46 | a failing first request rethrows with nothing changed; a failing second request rethrows after only the first accept; otherwise it resolves, with the decline applied unless it failed (it is not awaited, so its failure is never rethrown) |
| AcceptFriend.ProtocolFriendsLists | client/src/Functions/acceptFriendRequest.ts:17-28 | the two accepts add exactly the other side to each friends list |
| AcceptFriend.ProtocolKeepsTheRest | client/src/Functions/acceptFriendRequest.ts:17-31 | the three requests leave every other account, field and request list as it was, except that `me`'s requests lose the friend |
| AcceptFriend.ProtocolFriends | client/src/Functions/acceptFriendRequest.ts:17-31 | after the three requests the friends lists gain exactly the other side, only `me`'s requests lose the friend, and nothing else changes |
| AcceptFriend.ProtocolMakesFriends | client/src/Functions/acceptFriendRequest.ts:17-31 | afterwards each lists the other as a friend and the request is no longer pending |
| AcceptFriend.ProtocolIdempotent | client/src/Functions/acceptFriendRequest.ts:17-31 | accepting the same request again changes nothing |
| AcceptFriend.ProtocolKeepsSymmetry | client/src/Functions/acceptFriendRequest.ts:17-31 | a completed protocol keeps the friend relation symmetric |
| AcceptFriend.Status | server/src/models/userModel.ts:32-37 | friends exactly when each lists the other; half-friends exactly when one does; pending exactly when neither does and the request is stored |
| AcceptFriend.SendRequestPends | server/index.ts:115-131 | add-friend moves a pair with no relation to pending |
| AcceptFriend.AcceptCompletes | client/src/Functions/acceptFriendRequest.ts:17-31 | the full protocol moves a pending pair to friends and clears the request |
| AcceptFriend.DeclineClears | server/index.ts:158-174 | decline moves a pending pair back to no relation |
| AcceptFriend.SecondStepFailureHalfFriends | client/src/Functions/acceptFriendRequest.ts:17-28 | if the second request fails, the recipient lists the sender, the sender does not list the recipient, and the request is still pending |
| AcceptFriend.HalfFriendsAsymmetric | client/src/Functions/acceptFriendRequest.ts:24-28 | that half-friend state breaks the symmetry of the friend relation |
| AcceptFriend.FriendsIsTerminal | server/index.ts:115-193 | no friend route removes a friendship |
| AcceptFriend.AliceAndBob | client/src/Functions/acceptFriendRequest.ts:14-31 | bob asks alice and alice accepts: alice's requests list shows bob, and afterwards each is the other's only friend and nothing is pending |
| AuthContext.InitialAuthState | client/src/Context/AuthContext.tsx:19-21 | nobody is logged in |
| AuthContext.AuthReducer | client/src/Context/AuthContext.tsx:30-42 | LOGIN stores the payload, LOGOUT returns to the initial state, any other action keeps the state |
| AuthContext.ReducerIdempotent | client/src/Context/AuthContext.tsx:30-42 | dispatching an action twice is dispatching it once |
| AuthContext.Replay | client/src/Context/AuthContext.tsx:51 | — (the state `useReducer` holds after a run of dispatches; stated by `LastActionDecides`) |
| AuthContext.LastAuthAction | client/src/Context/AuthContext.tsx:16 | a LOGIN or LOGOUT that occurs in the sequence with only other kinds of action after it, or none when every action is another kind |
| AuthContext.LastActionDecides | client/src/Context/AuthContext.tsx:30-51 | the state after a run of dispatches depends only on the last LOGIN or LOGOUT, or is the start state without one |
| UseFavourites.ErrorAfter | client/src/Hooks/useFavourites.ts:64-71 | no error after an ok response, `json.error` after a refusal, the exception's message after a throw |
| UseFavourites.IsFavourite | client/src/Hooks/useFavourites.ts:100-118 | true exactly for an ok response with the message "Movie in favorites"; refusals and throws read as false |
| UseFavourites.Received | client/src/Hooks/useFavourites.ts:63-64 | — (how the client reads a reply: `ok` for a 2xx status, `json.message`, `json.error`; used by `IsFavouriteAgreesWithServer`) |
| UseFavourites.IsFavouriteAgreesWithServer | client/src/Hooks/useFavourites.ts:109-110 | for an existing user the client's answer is true exactly when the server holds the movie |
| UseFavourites.IsFavouriteUnknownUser | client/src/Hooks/useFavourites.ts:109-116 | the 404 for a missing account reads as false |
| UseFavourites.AddThenRemoveLocally | client/src/Hooks/useFavourites.ts:65-89 | a local add of an absent id followed by a local remove gives back the list |
| UseFavourites.FavouritesHook.constructor | client/src/Hooks/useFavourites.ts:18-20 | the list starts empty, not loading, with no error |
| UseFavourites.FavouritesHook.Begin | client/src/Hooks/useFavourites.ts:53-54 | loading set, error cleared, list kept |
| UseFavourites.FavouritesHook.SettleAdd | client/src/Hooks/useFavourites.ts:63-72 | appends on success, otherwise keeps the list and records the error; loading cleared |
| UseFavourites.FavouritesHook.SettleRemove | client/src/Hooks/useFavourites.ts:87-96 | filters the id out on success, otherwise keeps the list and records the error; loading cleared |
| UseFavourites.FavouritesHook.AddFavourite | client/src/Hooks/useFavourites.ts:52-73 | the whole add: appended without a duplicate check on success, error as `ErrorAfter`, not loading at the end |
| UseFavourites.FavouritesHook.RemoveFavourite | client/src/Hooks/useFavourites.ts:76-97 | the whole remove: on success no copy of the id remains and the rest keep their order; error as `ErrorAfter` |

## Left out

- In several places the code as written would fail at run time. The model follows the evidently intended behaviour there instead:
  - `requireAuth` calls `User.findOne` (`server/src/middleware/requireAuth.ts:40`), but the file imports only the named `UserModel` (line 7). As written, every token that verifies ends in a ReferenceError, which the `catch` answers 401 "Request is not authorized". RequireAuth.Decide and RequireAuth.Guard look the user up and proceed.
  - `server/index.ts:15` and `server/index.ts:18` default-import `./src/models/userModel`, which has only the named export `UserModel` (`server/src/models/userModel.ts:136`). The model takes `User` to be that collection.
  - The schema types `friends` and `friendsRequests` as ObjectId arrays (`server/src/models/userModel.ts:32-37`), but the friend routes write usernames into them (`server/index.ts:123`, `166`, `185`). Mongoose would fail to cast those, and the route would answer 500. Server.AddFriendRequest, Server.Decline and Server.Accept store the usernames as the routes intend.
- UserModel.UserStore.Signup: bcrypt's hash is uninterpreted, so the contract states only that the stored password is `hash(password, salt)`. It does not state that this differs from the raw password.
- Persistence, connection failures and every 500 answer caused by a failing store call are not modelled. The store never fails. The only 500 answers kept are the null reads of the listings.
- bcrypt, validator and jsonwebtoken are parameters (`Bcrypt`, `isEmail`, `verify`, `sign`). The model does not capture the strength of the hash or signature, or expiry checking inside `jwt.verify`. `Expired` only states the meaning of the three-day lifetime.
- The text of Mongoose's validation and duplicate-key messages is a stand-in. The model keeps the error kind and the path. It reports only the first missing path, where Mongoose lists them all.
- Movie ids are strings on the server. The schema declares `ObjectId` arrays, and the casting Mongoose would apply is not modelled. The client's ids are integers.
- Concurrency between requests is not modelled: each handler runs atomically on the collection. This covers interleaved `findOneAndUpdate` calls and the race between the unawaited decline and later requests.
- The routes `/test`, `/search`, `/users`, `/user/:myUsername`, the ratings routes and CORS set-up only read or relay data, and are not part of this model.
- The `useFavourites` effect that loads the list (`client/src/Hooks/useFavourites.ts:23-49`), React rendering, and the `localStorage` restore in `AuthContextProvider` are not modelled. The restore only dispatches LOGIN, which `AuthReducer` covers.
- Absent JSON fields are modelled as empty strings (body fields) or `None` (headers, optional results). A field sent with a non-string type is not modelled.
- RequireAuth.Guard: an exception thrown by a later handler inside `next()` would be caught and answered 401. Handlers are outside the guard, so this is not modelled.
- AcceptFriend.AcceptFriendRequest: the failure of a request is modelled as reaching no handler. A request that changes the store and then fails in transit is not modelled.
- Server.IsFavoriteReply: the contract fixes the answer only for a non-empty movie id. Express never routes an empty parameter, and the body's truthiness test is modelled as written.
- Server.FavoritesReply: the route is behind the auth guard but lists the favourites of the user named in the path, whoever is logged in. The model keeps that; it states no access-control property.
- Server.AddFriendRoute, Server.DeclineRoute, Server.AcceptRoute: the document sent back includes the stored password hash, as `res.send(result)` does. No property is stated about what the answer hides.
