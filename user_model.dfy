/**
 * The user collection of server/src/models/userModel.ts: the account record,
 * the `signup` and `login` validation chains, and the `addFavorite` /
 * `removeFavorite` document methods.
 *
 * The MongoDB collection is an in-memory store keyed by username, with a
 * second index from account id to username (the collection's two unique
 * indexes).  bcrypt and validator are foreign code: they enter as function
 * values that the model never looks inside.
 */
module UserModel {
  import opened Results
  import opened Lists

  /** A document id (`_id`).  The store hands them out in increasing order. */
  type Id = nat

  /** One user document.  `password` holds the bcrypt hash, never the raw password. */
  datatype Account = Account(
    id: Id,
    email: string,
    username: string,
    password: string,
    favorites: seq<string>,
    friends: seq<string>,
    friendsRequests: seq<string>)

  /** The errors the model methods throw, and the ones Mongoose raises from `create`. */
  datatype UserError =
    | AllFieldsRequired
    | EmailNotValid
    | EmailInUse
    | IncorrectEmail
    | IncorrectPassword
    | MovieAlreadyInFavorites
    | MovieNotInFavorites
    | PathRequired(path: string)
    | DuplicateKey(path: string)

  /** The `message` of the thrown error. */
  function Message(e: UserError): string {
    match e
    case AllFieldsRequired => "All fields must be filled"
    case EmailNotValid => "Email not valid"
    case EmailInUse => "Email already in use"
    case IncorrectEmail => "Incorrect email"
    case IncorrectPassword => "Incorrect password"
    case MovieAlreadyInFavorites => "Movie already in favorites"
    case MovieNotInFavorites => "Movie not found in favorites"
    case PathRequired(p) => "User validation failed: " + p + ": Path `" + p + "` is required."
    case DuplicateKey(p) => "E11000 duplicate key error collection: users index: " + p + "_1"
  }

  /** bcrypt's `hash(password, salt)` and `compare(password, hash)`, left uninterpreted. */
  datatype Bcrypt = Bcrypt(hash: (string, string) -> string, compare: (string, string) -> bool)

  /** Each of the three lists of an account reads as a set. */
  predicate ListsAreSets(a: Account) {
    NoDup(a.favorites) && NoDup(a.friends) && NoDup(a.friendsRequests)
  }

  /** The id index and the username index agree: each account is filed under its own id and username. */
  ghost predicate Indexed(accounts: map<string, Account>, ids: map<Id, string>) {
    && (forall u | u in accounts :: accounts[u].username == u && accounts[u].id in ids && ids[accounts[u].id] == u)
    && (forall i | i in ids :: ids[i] in accounts && accounts[ids[i]].id == i)
  }

  /**
   * What the collection guarantees: the two indexes agree, every id is below
   * the next one to be handed out, emails are unique (the schema's `unique`
   * index) and no list holds a duplicate.
   */
  ghost predicate WellFormed(accounts: map<string, Account>, ids: map<Id, string>, nextId: Id) {
    && Indexed(accounts, ids)
    && (forall u | u in accounts :: accounts[u].id < nextId && ListsAreSets(accounts[u]))
    && (forall u, v | u in accounts && v in accounts && u != v :: accounts[u].email != accounts[v].email)
  }

  /** `findOne({ email })` finds a document. */
  predicate EmailTaken(accounts: map<string, Account>, email: string) {
    exists u | u in accounts :: accounts[u].email == email
  }

  /** `findOne({ _id: id })`, `findById(id)`: the account with that id, if any. */
  function FindById(accounts: map<string, Account>, ids: map<Id, string>, id: Id): (r: Option<Account>)
    ensures r.Some? ==> r.value.id == id && r.value.username in accounts && accounts[r.value.username] == r.value
    ensures Indexed(accounts, ids) ==> (r.None? <==> forall u | u in accounts :: accounts[u].id != id)
  {
    if id in ids && ids[id] in accounts && accounts[ids[id]].id == id && accounts[ids[id]].username == ids[id]
    then Some(accounts[ids[id]])
    else None
  }

  /** The same store with `username`'s favorites replaced (a save of the one modified path). */
  function WithFavorites(accounts: map<string, Account>, username: string, favorites: seq<string>): (r: map<string, Account>)
    ensures r.Keys == accounts.Keys
    ensures forall u | u in accounts && u != username :: r[u] == accounts[u]
    ensures username in accounts ==> r[username] == accounts[username].(favorites := favorites)
  {
    if username in accounts then accounts[username := accounts[username].(favorites := favorites)] else accounts
  }

  /** Every account keeps its username, id, email and password hash. */
  ghost predicate SameIdentities(before: map<string, Account>, after: map<string, Account>) {
    && after.Keys == before.Keys
    && forall u | u in before ::
         after[u].id == before[u].id && after[u].email == before[u].email
         && after[u].username == before[u].username && after[u].password == before[u].password
  }

  /** Changing only lists, and keeping them duplicate-free, keeps the collection well formed. */
  lemma RelistedWellFormed(before: map<string, Account>, after: map<string, Account>, ids: map<Id, string>, nextId: Id)
    requires WellFormed(before, ids, nextId)
    requires SameIdentities(before, after)
    requires forall u | u in after :: ListsAreSets(after[u])
    ensures WellFormed(after, ids, nextId)
  {
    forall u | u in after
      ensures after[u].username == u && after[u].id in ids && ids[after[u].id] == u && after[u].id < nextId
    {
      assert u in before;
    }
    forall i | i in ids
      ensures ids[i] in after && after[ids[i]].id == i
    {
      assert ids[i] in before;
    }
    forall u, v | u in after && v in after && u != v
      ensures after[u].email != after[v].email
    {
      assert u in before && v in before;
    }
  }

  /** Saving a duplicate-free favourites list keeps the collection well formed. */
  lemma WithFavoritesWellFormed(accounts: map<string, Account>, ids: map<Id, string>, nextId: Id, username: string, favorites: seq<string>)
    requires WellFormed(accounts, ids, nextId) && NoDup(favorites)
    ensures WellFormed(WithFavorites(accounts, username, favorites), ids, nextId)
  {
    var after := WithFavorites(accounts, username, favorites);
    forall u | u in after
      ensures ListsAreSets(after[u])
    {
      assert ListsAreSets(accounts[u]);
    }
    RelistedWellFormed(accounts, after, ids, nextId);
  }

  /**
   * The guard chain of `signup` (lines 59-71): empty fields, then email
   * syntax, then email uniqueness.  The username is not looked at.
   */
  function SignupCheck(accounts: map<string, Account>, email: string, password: string, isEmail: string -> bool): (r: Option<UserError>)
    ensures r == Some(AllFieldsRequired) <==> email == "" || password == ""
    ensures r == Some(EmailNotValid) <==> email != "" && password != "" && !isEmail(email)
    ensures r == Some(EmailInUse) <==> email != "" && password != "" && isEmail(email) && EmailTaken(accounts, email)
    ensures r.None? <==> email != "" && password != "" && isEmail(email) && !EmailTaken(accounts, email)
  {
    if email == "" || password == "" then Some(AllFieldsRequired)
    else if !isEmail(email) then Some(EmailNotValid)
    else if EmailTaken(accounts, email) then Some(EmailInUse)
    else None
  }

  /** The failed emptiness and syntax checks answer the same whatever the store holds. */
  lemma SignupValidatesBeforeLookup(a: map<string, Account>, b: map<string, Account>, email: string, password: string, isEmail: string -> bool)
    requires email == "" || password == "" || !isEmail(email)
    ensures SignupCheck(a, email, password, isEmail) == SignupCheck(b, email, password, isEmail)
    ensures SignupCheck(a, email, password, isEmail) in {Some(AllFieldsRequired), Some(EmailNotValid)}
  {
  }

  /**
   * What Mongoose's `create` rejects for this schema: a missing required path
   * (checked in schema order) or a clash on a unique index.
   */
  function CreateCheck(accounts: map<string, Account>, email: string, username: string, password: string): (r: Option<UserError>)
    ensures r.None? <==> email != "" && username != "" && password != "" && !EmailTaken(accounts, email) && username !in accounts
    ensures r.Some? ==> r.value.PathRequired? || r.value.DuplicateKey?
  {
    if email == "" then Some(PathRequired("email"))
    else if username == "" then Some(PathRequired("username"))
    else if password == "" then Some(PathRequired("password"))
    else if EmailTaken(accounts, email) then Some(DuplicateKey("email"))
    else if username in accounts then Some(DuplicateKey("username"))
    else None
  }

  /** The document `create` inserts: the given fields and three empty lists. */
  function NewAccount(id: Id, email: string, username: string, password: string): Account {
    Account(id, email, username, password, [], [], [])
  }

  /**
   * `login` (lines 87-104): empty fields, then the username lookup, then the
   * bcrypt comparison against the stored hash.
   */
  function Login(accounts: map<string, Account>, username: string, password: string, bcrypt: Bcrypt): (r: Result<Account, UserError>)
    ensures r.Ok? <==> username != "" && password != "" && username in accounts && bcrypt.compare(password, accounts[username].password)
    ensures r.Ok? ==> username in accounts && r.value == accounts[username]
    ensures r.Ok? ==> bcrypt.compare(password, r.value.password)
    ensures r == Err(AllFieldsRequired) <==> username == "" || password == ""
    ensures r == Err(IncorrectEmail) <==> username != "" && password != "" && username !in accounts
    ensures r.Err? ==> r.error in {AllFieldsRequired, IncorrectEmail, IncorrectPassword}
  {
    if username == "" || password == "" then Err(AllFieldsRequired)
    else if username !in accounts then Err(IncorrectEmail)
    else if !bcrypt.compare(password, accounts[username].password) then Err(IncorrectPassword)
    else Ok(accounts[username])
  }

  /** The login failures carry three different messages. */
  lemma LoginMessagesDistinct()
    ensures Message(AllFieldsRequired) != Message(IncorrectEmail)
    ensures Message(AllFieldsRequired) != Message(IncorrectPassword)
    ensures Message(IncorrectEmail) != Message(IncorrectPassword)
  {
  }

  /**
   * A second signup with an email that is already stored is refused with
   * "Email already in use" before any username is looked at.
   */
  lemma SecondSignupConflicts(accounts: map<string, Account>, id: Id, email: string, username: string, hash: string,
                              password: string, isEmail: string -> bool)
    requires password != "" && isEmail(email) && email != ""
    ensures SignupCheck(accounts[username := NewAccount(id, email, username, hash)], email, password, isEmail) == Some(EmailInUse)
  {
    var after := accounts[username := NewAccount(id, email, username, hash)];
    assert after[username].email == email;
  }

  /**
   * Signing up and then logging in: the right password is accepted and a
   * wrong one is refused, as far as bcrypt's comparison tells them apart.
   */
  lemma SignupThenLogin(accounts: map<string, Account>, id: Id, email: string, username: string,
                        password: string, wrong: string, salt: string, bcrypt: Bcrypt)
    requires username != "" && password != "" && wrong != ""
    requires bcrypt.compare(password, bcrypt.hash(password, salt))
    requires !bcrypt.compare(wrong, bcrypt.hash(password, salt))
    ensures var after := accounts[username := NewAccount(id, email, username, bcrypt.hash(password, salt))];
      && Login(after, username, password, bcrypt) == Ok(after[username])
      && Login(after, username, wrong, bcrypt) == Err(IncorrectPassword)
  {
  }

  /** Inserting a fresh account under the next id keeps the collection well formed. */
  lemma InsertWellFormed(accounts: map<string, Account>, ids: map<Id, string>, nextId: Id, a: Account)
    requires WellFormed(accounts, ids, nextId)
    requires a.id == nextId && a.username !in accounts && !EmailTaken(accounts, a.email) && ListsAreSets(a)
    ensures WellFormed(accounts[a.username := a], ids[nextId := a.username], nextId + 1)
  {
    var after, ids' := accounts[a.username := a], ids[nextId := a.username];
    assert nextId !in ids;
    forall u | u in after
      ensures after[u].username == u && after[u].id in ids' && ids'[after[u].id] == u
      ensures after[u].id < nextId + 1 && ListsAreSets(after[u])
    {
      if u != a.username {
        assert after[u] == accounts[u] && accounts[u].id < nextId;
      }
    }
    forall i | i in ids'
      ensures ids'[i] in after && after[ids'[i]].id == i
    {
      if i != nextId {
        assert ids[i] in accounts && accounts[ids[i]].id == i < nextId;
      }
    }
    forall u, v | u in after && v in after && u != v
      ensures after[u].email != after[v].email
    {
      if u == a.username {
        assert after[v] == accounts[v];
      } else if v == a.username {
        assert after[u] == accounts[u];
      }
    }
  }

  /** The user collection. */
  class UserStore {
    var accounts: map<string, Account>
    var ids: map<Id, string>
    var nextId: Id

    ghost predicate Valid()
      reads this
    {
      WellFormed(accounts, ids, nextId)
    }

    constructor ()
      ensures Valid() && accounts == map[] && ids == map[]
    {
      accounts, ids, nextId := map[], map[], 0;
    }

    /** `User.create(...)`: insert a fresh document, or fail as Mongoose would. */
    method Create(email: string, username: string, password: string) returns (r: Result<Account, UserError>)
      requires Valid()
      modifies this
      ensures Valid()
      ensures var fault := CreateCheck(old(accounts), email, username, password);
        if fault.Some? then
          r == Err(fault.value) && accounts == old(accounts) && ids == old(ids) && nextId == old(nextId)
        else
          && r == Ok(NewAccount(old(nextId), email, username, password))
          && accounts == old(accounts)[username := r.value]
          && ids == old(ids)[old(nextId) := username]
          && nextId == old(nextId) + 1
    {
      var fault := CreateCheck(accounts, email, username, password);
      if fault.Some? {
        return Err(fault.value);
      }
      var account := NewAccount(nextId, email, username, password);
      InsertWellFormed(accounts, ids, nextId, account);
      accounts := accounts[username := account];
      ids := ids[nextId := username];
      nextId := nextId + 1;
      r := Ok(account);
    }

    /**
     * `User.signup(email, username, password)`.  The salt is what
     * `bcrypt.genSalt(10)` produced; only its hash of the password is stored.
     */
    method Signup(email: string, username: string, password: string, salt: string, isEmail: string -> bool, bcrypt: Bcrypt)
      returns (r: Result<Account, UserError>)
      requires Valid()
      modifies this
      ensures Valid()
      ensures var fault := SignupCheck(old(accounts), email, password, isEmail);
        fault.Some? ==> r == Err(fault.value) && accounts == old(accounts) && ids == old(ids) && nextId == old(nextId)
      ensures r.Ok? ==>
        && SignupCheck(old(accounts), email, password, isEmail).None?
        && r.value == NewAccount(old(nextId), email, username, bcrypt.hash(password, salt))
        && username !in old(accounts)
        && accounts == old(accounts)[username := r.value]
        && |accounts| == |old(accounts)| + 1
      ensures r.Err? ==> accounts == old(accounts) && ids == old(ids) && nextId == old(nextId)
      ensures SignupCheck(old(accounts), email, password, isEmail).None? ==>
        (r.Ok? <==> username != "" && username !in old(accounts) && bcrypt.hash(password, salt) != "")
      ensures var fault := CreateCheck(old(accounts), email, username, bcrypt.hash(password, salt));
        SignupCheck(old(accounts), email, password, isEmail).None? && fault.Some? ==> r == Err(fault.value)
    {
      if email == "" || password == "" {
        return Err(AllFieldsRequired);
      }
      if !isEmail(email) {
        return Err(EmailNotValid);
      }
      if EmailTaken(accounts, email) {
        return Err(EmailInUse);
      }
      var hash := bcrypt.hash(password, salt);
      r := Create(email, username, hash);
    }
  }

  /**
   * A user document as `findOne` hands it out: a copy of the stored account
   * whose lists the document methods change in place before `save`.
   */
  class UserDocument {
    const model: UserStore
    const id: Id
    const email: string
    const username: string
    const password: string
    var favorites: seq<string>
    var friends: seq<string>
    var friendsRequests: seq<string>

    function Snapshot(): Account
      reads this
    {
      Account(id, email, username, password, favorites, friends, friendsRequests)
    }

    ghost predicate Valid()
      reads this
    {
      ListsAreSets(Snapshot())
    }

    constructor Hydrate(model: UserStore, a: Account)
      ensures this.model == model && Snapshot() == a
    {
      this.model := model;
      id, email, username, password := a.id, a.email, a.username, a.password;
      favorites, friends, friendsRequests := a.favorites, a.friends, a.friendsRequests;
    }

    /** `save()`: write the modified `favorites` path back to the collection. */
    method Save()
      requires Valid() && model.Valid()
      modifies model`accounts
      ensures model.Valid()
      ensures model.accounts == WithFavorites(old(model.accounts), username, favorites)
    {
      WithFavoritesWellFormed(model.accounts, model.ids, model.nextId, username, favorites);
      model.accounts := WithFavorites(model.accounts, username, favorites);
    }

    /** `addFavorite(movieId)` (lines 108-117). */
    method AddFavorite(movieId: string) returns (err: Option<UserError>)
      requires Valid() && model.Valid()
      modifies this`favorites, model`accounts
      ensures Valid() && model.Valid()
      ensures movieId in old(favorites) ==>
        err == Some(MovieAlreadyInFavorites) && favorites == old(favorites) && model.accounts == old(model.accounts)
      ensures movieId !in old(favorites) ==>
        && err == None
        && favorites == old(favorites) + [movieId]
        && model.accounts == WithFavorites(old(model.accounts), username, favorites)
    {
      if movieId in favorites {
        return Some(MovieAlreadyInFavorites);
      }
      favorites := favorites + [movieId];
      Save();
      err := None;
    }

    /** `removeFavorite(movieId)` (lines 120-130). */
    method RemoveFavorite(movieId: string) returns (err: Option<UserError>)
      requires Valid() && model.Valid()
      modifies this`favorites, model`accounts
      ensures Valid() && model.Valid()
      ensures movieId !in old(favorites) ==>
        err == Some(MovieNotInFavorites) && favorites == old(favorites) && model.accounts == old(model.accounts)
      ensures movieId in old(favorites) ==>
        && err == None
        && favorites == RemoveAt(old(favorites), IndexOf(old(favorites), movieId))
        && movieId !in favorites
        && model.accounts == WithFavorites(old(model.accounts), username, favorites)
    {
      var index := IndexOf(favorites, movieId);
      if index == -1 {
        return Some(MovieNotInFavorites);
      }
      RemoveFirstFromSet(favorites, movieId);
      favorites := RemoveAt(favorites, index);
      Save();
      err := None;
    }
  }
}
