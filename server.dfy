/**
 * The request handlers of server/index.ts that carry logic: token issue, the
 * login and signup routes, the three friend-request routes and the two
 * listings, and the favourites routes.
 *
 * Each handler is a method over the user collection (or a function when it
 * only reads).  `jwt.sign` enters as a function value.  A handler's answer is
 * a `Reply`: the status code and the JSON body it sends.
 */
module Server {
  import opened Results
  import opened Lists
  import opened UserModel

  /** `expiresIn: "3d"`, in seconds. */
  const ThreeDays: nat := 3 * 24 * 60 * 60

  /** The JWT payload `{ _id }` and the lifetime passed to `jwt.sign`. */
  datatype Claims = Claims(subject: Id, expiresIn: nat)

  /** The body of an HTTP answer. */
  datatype Body =
    | ErrorBody(error: string)
    | MessageBody(message: string)
    | Names(names: seq<string>)
    | Document(doc: Option<Account>)
    | LoginBody(username: string, token: string)
    | SignupBody(email: string, username: string, token: string)

  datatype Reply = Reply(status: nat, body: Body)

  /** What `createToken(_id)` signs: the account id and nothing else, valid for three days. */
  function TokenClaims(id: Id): (c: Claims)
    ensures c.subject == id && c.expiresIn == 259200
  {
    Claims(id, ThreeDays)
  }

  /** `createToken(_id)`: `sign` stands for `jwt.sign` with the server secret. */
  function CreateToken(id: Id, sign: Claims -> string): string {
    sign(TokenClaims(id))
  }

  /** A token signed at `issuedAt` has expired at `now` (the registered "exp" claim, RFC 7519 section 4.1.4). */
  predicate Expired(c: Claims, issuedAt: nat, now: nat) {
    now >= issuedAt + c.expiresIn
  }

  /** A token issued at T is still good an hour later and has expired four days later. */
  lemma TokenLifetime(id: Id, t: nat)
    ensures !Expired(TokenClaims(id), t, t + 60 * 60)
    ensures Expired(TokenClaims(id), t, t + 4 * 24 * 60 * 60)
  {
  }

  /** The message of the `TypeError` thrown when a handler reads a field of a `null` lookup result. */
  function NullRead(path: string): string {
    "Cannot read properties of null (reading '" + path + "')"
  }

  /** `User.findOne({ username })`. */
  function Lookup(accounts: map<string, Account>, username: string): (r: Option<Account>)
    ensures r.Some? <==> username in accounts
    ensures r.Some? ==> r.value == accounts[username]
  {
    if username in accounts then Some(accounts[username]) else None
  }

  // ---------------------------------------------------------------------------
  // POST /login and POST /signup

  /** POST /login (lines 51-64): 200 with the username and a token, or 400 with the thrown message. */
  function LoginReply(accounts: map<string, Account>, username: string, password: string, bcrypt: Bcrypt, sign: Claims -> string): (r: Reply)
    ensures r.status == 200 <==> Login(accounts, username, password, bcrypt).Ok?
    ensures r.status == 200 ==> r.body == LoginBody(username, sign(Claims(accounts[username].id, ThreeDays)))
    ensures r.status != 200 ==> r == Reply(400, ErrorBody(Message(Login(accounts, username, password, bcrypt).error)))
  {
    match Login(accounts, username, password, bcrypt)
    case Ok(user) => Reply(200, LoginBody(username, CreateToken(user.id, sign)))
    case Err(e) => Reply(400, ErrorBody(Message(e)))
  }

  /** POST /signup (lines 66-76). */
  method SignupRoute(db: UserStore, email: string, username: string, password: string, salt: string,
                     isEmail: string -> bool, bcrypt: Bcrypt, sign: Claims -> string)
    returns (reply: Reply)
    requires db.Valid()
    modifies db
    ensures db.Valid()
    ensures reply.status == 200 ==>
      && username !in old(db.accounts) && username in db.accounts
      && db.accounts[username].password == bcrypt.hash(password, salt)
      && reply.body == SignupBody(email, username, sign(TokenClaims(db.accounts[username].id)))
    ensures reply.status == 200 ==>
      db.accounts == old(db.accounts)[username := NewAccount(old(db.nextId), email, username, bcrypt.hash(password, salt))]
    ensures reply.status != 200 ==> reply.status == 400 && reply.body.ErrorBody? && db.accounts == old(db.accounts)
    ensures var fault := SignupCheck(old(db.accounts), email, password, isEmail);
      fault.Some? ==> reply == Reply(400, ErrorBody(Message(fault.value)))
    ensures SignupCheck(old(db.accounts), email, password, isEmail).None? ==>
      (reply.status == 200 <==> CreateCheck(old(db.accounts), email, username, bcrypt.hash(password, salt)).None?)
    ensures var refusal := CreateCheck(old(db.accounts), email, username, bcrypt.hash(password, salt));
      SignupCheck(old(db.accounts), email, password, isEmail).None? && refusal.Some? ==>
        reply == Reply(400, ErrorBody(Message(refusal.value)))
  {
    var r := db.Signup(email, username, password, salt, isEmail, bcrypt);
    match r
    case Ok(user) =>
      reply := Reply(200, SignupBody(email, username, CreateToken(user.id, sign)));
    case Err(e) =>
      reply := Reply(400, ErrorBody(Message(e)));
  }

  // ---------------------------------------------------------------------------
  // The friend-request routes: one `findOneAndUpdate` each.

  /** `$addToSet: { friendsRequests: me }` on the document of `them`; nothing else changes. */
  function AddFriendRequest(accounts: map<string, Account>, me: string, them: string): (r: map<string, Account>)
    ensures r.Keys == accounts.Keys
    ensures forall u | u in accounts && u != them :: r[u] == accounts[u]
    ensures them in accounts ==>
      && r[them] == accounts[them].(friendsRequests := r[them].friendsRequests)
      && me in r[them].friendsRequests
      && (forall x :: x in r[them].friendsRequests <==> x in accounts[them].friendsRequests || x == me)
      && (me in accounts[them].friendsRequests ==> r == accounts)
  {
    if them in accounts
    then accounts[them := accounts[them].(friendsRequests := AddToSet(accounts[them].friendsRequests, me))]
    else accounts
  }

  /** `$pull: { friendsRequests: them }` on the document of `me`; nothing else changes. */
  function Decline(accounts: map<string, Account>, me: string, them: string): (r: map<string, Account>)
    ensures r.Keys == accounts.Keys
    ensures forall u | u in accounts && u != me :: r[u] == accounts[u]
    ensures me in accounts ==>
      && r[me] == accounts[me].(friendsRequests := r[me].friendsRequests)
      && them !in r[me].friendsRequests
      && (forall x :: x in r[me].friendsRequests <==> x in accounts[me].friendsRequests && x != them)
  {
    if me in accounts
    then accounts[me := accounts[me].(friendsRequests := Pull(accounts[me].friendsRequests, them))]
    else accounts
  }

  /** `$addToSet: { friends: them }` on the document of `me`; nothing else changes. */
  function Accept(accounts: map<string, Account>, me: string, them: string): (r: map<string, Account>)
    ensures r.Keys == accounts.Keys
    ensures forall u | u in accounts && u != me :: r[u] == accounts[u]
    ensures me in accounts ==>
      && r[me] == accounts[me].(friends := r[me].friends)
      && them in r[me].friends
      && (forall x :: x in r[me].friends <==> x in accounts[me].friends || x == them)
      && (them in accounts[me].friends ==> r == accounts)
  {
    if me in accounts
    then accounts[me := accounts[me].(friends := AddToSet(accounts[me].friends, them))]
    else accounts
  }

  /** Sending the same request twice is the same as sending it once. */
  lemma AddFriendRequestIdempotent(accounts: map<string, Account>, me: string, them: string)
    ensures AddFriendRequest(AddFriendRequest(accounts, me, them), me, them) == AddFriendRequest(accounts, me, them)
  {
  }

  /** Declining a request that is not pending succeeds and changes nothing. */
  lemma DeclineAbsent(accounts: map<string, Account>, me: string, them: string)
    requires me in accounts ==> them !in accounts[me].friendsRequests
    ensures Decline(accounts, me, them) == accounts
  {
    if me in accounts {
      PullAbsent(accounts[me].friendsRequests, them);
      assert accounts[me].(friendsRequests := accounts[me].friendsRequests) == accounts[me];
    }
  }

  /** Declining twice is the same as declining once. */
  lemma DeclineIdempotent(accounts: map<string, Account>, me: string, them: string)
    ensures Decline(Decline(accounts, me, them), me, them) == Decline(accounts, me, them)
  {
    DeclineAbsent(Decline(accounts, me, them), me, them);
  }

  /** Accepting twice is the same as accepting once. */
  lemma AcceptIdempotent(accounts: map<string, Account>, me: string, them: string)
    ensures Accept(Accept(accounts, me, them), me, them) == Accept(accounts, me, them)
  {
  }

  /** PUT /user/:me/add-friend/:them (lines 115-131): answers with the recipient's document as it was before. */
  method AddFriendRoute(db: UserStore, me: string, them: string) returns (reply: Reply)
    requires db.Valid()
    modifies db`accounts
    ensures db.Valid()
    ensures db.accounts == AddFriendRequest(old(db.accounts), me, them)
    ensures reply == Reply(200, Document(Lookup(old(db.accounts), them)))
  {
    var before := Lookup(db.accounts, them);
    RelistedWellFormed(db.accounts, AddFriendRequest(db.accounts, me, them), db.ids, db.nextId);
    db.accounts := AddFriendRequest(db.accounts, me, them);
    reply := Reply(200, Document(before));
  }

  /** PUT /user/:me/decline-friend-request/:them (lines 158-174). */
  method DeclineRoute(db: UserStore, me: string, them: string) returns (reply: Reply)
    requires db.Valid()
    modifies db`accounts
    ensures db.Valid()
    ensures db.accounts == Decline(old(db.accounts), me, them)
    ensures reply == Reply(200, Document(Lookup(old(db.accounts), me)))
  {
    var before := Lookup(db.accounts, me);
    RelistedWellFormed(db.accounts, Decline(db.accounts, me, them), db.ids, db.nextId);
    db.accounts := Decline(db.accounts, me, them);
    reply := Reply(200, Document(before));
  }

  /** PUT /user/:me/accept-friend-request/:them (lines 177-193). */
  method AcceptRoute(db: UserStore, me: string, them: string) returns (reply: Reply)
    requires db.Valid()
    modifies db`accounts
    ensures db.Valid()
    ensures db.accounts == Accept(old(db.accounts), me, them)
    ensures reply == Reply(200, Document(Lookup(old(db.accounts), me)))
  {
    var before := Lookup(db.accounts, me);
    RelistedWellFormed(db.accounts, Accept(db.accounts, me, them), db.ids, db.nextId);
    db.accounts := Accept(db.accounts, me, them);
    reply := Reply(200, Document(before));
  }

  /** GET /friend-requests/:me (lines 134-143): the stored list, or 500 when there is no such user. */
  function FriendRequestsReply(accounts: map<string, Account>, me: string): (r: Reply)
    ensures me in accounts <==> r.status == 200
    ensures r.status == 200 ==> r.body == Names(accounts[me].friendsRequests)
    ensures r.status != 200 ==> r == Reply(500, ErrorBody(NullRead("friendsRequests")))
  {
    match Lookup(accounts, me)
    case Some(user) => Reply(200, Names(user.friendsRequests))
    case None => Reply(500, ErrorBody(NullRead("friendsRequests")))
  }

  /** GET /friends/:me (lines 196-205): the stored list, or 500 when there is no such user. */
  function FriendsReply(accounts: map<string, Account>, me: string): (r: Reply)
    ensures me in accounts <==> r.status == 200
    ensures r.status == 200 ==> r.body == Names(accounts[me].friends)
    ensures r.status != 200 ==> r == Reply(500, ErrorBody(NullRead("friends")))
  {
    match Lookup(accounts, me)
    case Some(user) => Reply(200, Names(user.friends))
    case None => Reply(500, ErrorBody(NullRead("friends")))
  }

  /** GET /:me/favorites (lines 207-220), behind the auth guard. */
  function FavoritesReply(accounts: map<string, Account>, me: string): (r: Reply)
    ensures me in accounts <==> r.status == 200
    ensures r.status == 200 ==> r.body == Names(accounts[me].favorites)
    ensures r.status != 200 ==> r == Reply(500, ErrorBody(NullRead("favorites")))
  {
    match Lookup(accounts, me)
    case Some(user) => Reply(200, Names(user.favorites))
    case None => Reply(500, ErrorBody(NullRead("favorites")))
  }

  // ---------------------------------------------------------------------------
  // The favourites routes; `userId` is the `req.user._id` the auth guard set.

  /** POST /favorites/add/:movieId (lines 222-237). */
  method AddFavoriteRoute(db: UserStore, userId: Id, movieId: string) returns (reply: Reply)
    requires db.Valid()
    modifies db`accounts
    ensures db.Valid()
    ensures var found := FindById(old(db.accounts), db.ids, userId);
      && (found.None? ==>
            reply == Reply(404, ErrorBody("User not found")) && db.accounts == old(db.accounts))
      && (found.Some? && movieId in found.value.favorites ==>
            reply == Reply(400, ErrorBody("Movie already in favorites")) && db.accounts == old(db.accounts))
      && (found.Some? && movieId !in found.value.favorites ==>
            && reply == Reply(200, MessageBody("Movie added to favorites"))
            && db.accounts == WithFavorites(old(db.accounts), found.value.username, found.value.favorites + [movieId]))
  {
    var found := FindById(db.accounts, db.ids, userId);
    if found.None? {
      return Reply(404, ErrorBody("User not found"));
    }
    var user := new UserDocument.Hydrate(db, found.value);
    var err := user.AddFavorite(movieId);
    if err.Some? {
      return Reply(400, ErrorBody(Message(err.value)));
    }
    reply := Reply(200, MessageBody("Movie added to favorites"));
  }

  /** DELETE /favorites/remove/:movieId (lines 239-254). */
  method RemoveFavoriteRoute(db: UserStore, userId: Id, movieId: string) returns (reply: Reply)
    requires db.Valid()
    modifies db`accounts
    ensures db.Valid()
    ensures var found := FindById(old(db.accounts), db.ids, userId);
      && (found.None? ==>
            reply == Reply(404, ErrorBody("User not found")) && db.accounts == old(db.accounts))
      && (found.Some? && movieId !in found.value.favorites ==>
            reply == Reply(400, ErrorBody("Movie not found in favorites")) && db.accounts == old(db.accounts))
      && (found.Some? && movieId in found.value.favorites ==>
            && reply == Reply(200, MessageBody("Movie removed from favorites"))
            && db.accounts == WithFavorites(old(db.accounts), found.value.username,
                                            RemoveAt(found.value.favorites, IndexOf(found.value.favorites, movieId))))
  {
    var found := FindById(db.accounts, db.ids, userId);
    if found.None? {
      return Reply(404, ErrorBody("User not found"));
    }
    var user := new UserDocument.Hydrate(db, found.value);
    var err := user.RemoveFavorite(movieId);
    if err.Some? {
      return Reply(400, ErrorBody(Message(err.value)));
    }
    reply := Reply(200, MessageBody("Movie removed from favorites"));
  }

  /** `favorites.find(id => String(id) === String(movieId))`: the first stored id equal to `movieId`. */
  function Find(favorites: seq<string>, movieId: string): (r: Option<string>)
    ensures r.Some? <==> movieId in favorites
    ensures r.Some? ==> r.value == movieId
  {
    var i := IndexOf(favorites, movieId);
    if i == -1 then None else Some(favorites[i])
  }

  /**
   * GET /favorites/isFavorite/:movieId (lines 256-284).  The handler tests the
   * value `find` returned for truthiness, so an empty id would read as absent;
   * a route parameter is never empty.
   */
  function IsFavoriteReply(accounts: map<string, Account>, ids: map<Id, string>, userId: Id, movieId: string): (r: Reply)
    ensures FindById(accounts, ids, userId).None? <==> r == Reply(404, ErrorBody("User not found"))
    ensures FindById(accounts, ids, userId).Some? && movieId != "" ==>
      r == Reply(200, MessageBody(
        if movieId in FindById(accounts, ids, userId).value.favorites then "Movie in favorites" else "Movie not in favourites"))
  {
    match FindById(accounts, ids, userId)
    case None => Reply(404, ErrorBody("User not found"))
    case Some(user) =>
      var found := Find(user.favorites, movieId);
      if found.None? || found.value == "" then Reply(200, MessageBody("Movie not in favourites"))
      else Reply(200, MessageBody("Movie in favorites"))
  }

  /** After a save of the favourites, the id still finds the account, now holding the saved list. */
  lemma FindAfterSave(accounts: map<string, Account>, ids: map<Id, string>, userId: Id, favorites: seq<string>)
    requires FindById(accounts, ids, userId).Some?
    ensures var user := FindById(accounts, ids, userId).value;
      FindById(WithFavorites(accounts, user.username, favorites), ids, userId) == Some(user.(favorites := favorites))
  {
  }

  /** Once a movie is saved in the favourites, the membership test says so. */
  lemma AddedIsFavorite(accounts: map<string, Account>, ids: map<Id, string>, userId: Id, movieId: string)
    requires FindById(accounts, ids, userId).Some? && movieId != ""
    ensures var user := FindById(accounts, ids, userId).value;
      IsFavoriteReply(WithFavorites(accounts, user.username, user.favorites + [movieId]), ids, userId, movieId).body
        == MessageBody("Movie in favorites")
  {
    var user := FindById(accounts, ids, userId).value;
    FindAfterSave(accounts, ids, userId, user.favorites + [movieId]);
  }

  /** Saving an added movie and then saving its removal gives back the collection. */
  lemma AddThenRemoveSaved(accounts: map<string, Account>, username: string, movieId: string)
    requires username in accounts && movieId !in accounts[username].favorites
    ensures var longer := accounts[username].favorites + [movieId];
      WithFavorites(WithFavorites(accounts, username, longer), username, RemoveAt(longer, IndexOf(longer, movieId))) == accounts
  {
    var longer := accounts[username].favorites + [movieId];
    AddThenRemove(accounts[username].favorites, movieId);
    var added := WithFavorites(accounts, username, longer);
    var removed := WithFavorites(added, username, accounts[username].favorites);
    assert removed[username] == accounts[username] by {
      assert added[username] == accounts[username].(favorites := longer);
    }
    assert removed == accounts by {
      assert removed.Keys == accounts.Keys;
      forall u | u in accounts
        ensures removed[u] == accounts[u]
      {
      }
    }
  }

  /**
   * Adding a movie, asking, removing it and asking again: the membership test
   * answers yes then no, and the list is back to what it was.
   */
  lemma FavoriteRoundTrip(accounts: map<string, Account>, ids: map<Id, string>, userId: Id, movieId: string)
    requires FindById(accounts, ids, userId).Some? && movieId != ""
    requires movieId !in FindById(accounts, ids, userId).value.favorites
    ensures var user := FindById(accounts, ids, userId).value;
      var added := WithFavorites(accounts, user.username, user.favorites + [movieId]);
      var removed := WithFavorites(added, user.username, RemoveAt(user.favorites + [movieId], IndexOf(user.favorites + [movieId], movieId)));
      && IsFavoriteReply(added, ids, userId, movieId).body == MessageBody("Movie in favorites")
      && IsFavoriteReply(removed, ids, userId, movieId).body == MessageBody("Movie not in favourites")
      && removed == accounts
  {
    var user := FindById(accounts, ids, userId).value;
    AddedIsFavorite(accounts, ids, userId, movieId);
    AddThenRemoveSaved(accounts, user.username, movieId);
    assert IsFavoriteReply(accounts, ids, userId, movieId).body == MessageBody("Movie not in favourites");
  }
}
