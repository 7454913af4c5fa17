/**
 * The `useFavourites` hook of client/src/Hooks/useFavourites.ts: a local
 * mirror of the favourites list with `loading` and `error` flags, updated
 * from the outcome of each request.  The outcome of `fetch` (and of
 * `response.json()`) is a parameter.
 */
module UseFavourites {
  import opened Results
  import opened Lists
  import UserModel
  import opened Server

  /** What a request produced: a parsed response, or an exception with its message. */
  datatype FetchOutcome =
    | Response(ok: bool, message: Option<string>, error: Option<string>)
    | Thrown(reason: string)

  /** The server answered with a 2xx status. */
  predicate Succeeded(outcome: FetchOutcome) {
    outcome.Response? && outcome.ok
  }

  /** The `error` a settled add or remove leaves: `json.error` on a refusal, the exception's message on a throw. */
  function ErrorAfter(outcome: FetchOutcome): (e: Option<string>)
    ensures Succeeded(outcome) ==> e == None
    ensures outcome.Thrown? ==> e == Some(outcome.reason)
    ensures outcome.Response? && !outcome.ok ==> e == outcome.error
  {
    match outcome
    case Response(ok, _, error) => if ok then None else error
    case Thrown(reason) => Some(reason)
  }

  /**
   * `isFavourite(movieId)`: true only for an ok response whose message is
   * "Movie in favorites"; a refusal is thrown and caught, and reads as false.
   */
  function IsFavourite(outcome: FetchOutcome): (r: bool)
    ensures r <==> Succeeded(outcome) && outcome.message == Some("Movie in favorites")
  {
    match outcome
    case Response(ok, message, _) => ok && message == Some("Movie in favorites")
    case Thrown(_) => false
  }

  /** How the client sees a server reply. */
  function Received(reply: Reply): FetchOutcome {
    Response(
      200 <= reply.status < 300,
      if reply.body.MessageBody? then Some(reply.body.message) else None,
      if reply.body.ErrorBody? then Some(reply.body.error) else None)
  }

  /** The client's answer agrees with the server's membership test for an existing user. */
  lemma IsFavouriteAgreesWithServer(accounts: map<string, UserModel.Account>, ids: map<UserModel.Id, string>, userId: UserModel.Id, movieId: string)
    requires UserModel.FindById(accounts, ids, userId).Some? && movieId != ""
    ensures IsFavourite(Received(IsFavoriteReply(accounts, ids, userId, movieId)))
        <==> movieId in UserModel.FindById(accounts, ids, userId).value.favorites
  {
  }

  /** Without a user the server answers 404, which the client reads as false. */
  lemma IsFavouriteUnknownUser(accounts: map<string, UserModel.Account>, ids: map<UserModel.Id, string>, userId: UserModel.Id, movieId: string)
    requires UserModel.FindById(accounts, ids, userId).None?
    ensures !IsFavourite(Received(IsFavoriteReply(accounts, ids, userId, movieId)))
  {
  }

  /** After a successful add of a movie that was absent, a successful remove gives back the list. */
  lemma AddThenRemoveLocally(favourites: seq<int>, movieId: int)
    requires movieId !in favourites
    ensures Pull(favourites + [movieId], movieId) == favourites
  {
    PullAppend(favourites, [movieId], movieId);
    PullAbsent(favourites, movieId);
    assert Pull([movieId], movieId) == [];
  }

  /** The hook's three state cells. */
  class FavouritesHook {
    var favourites: seq<int>
    var loading: bool
    var error: Option<string>

    constructor ()
      ensures favourites == [] && !loading && error == None
    {
      favourites, loading, error := [], false, None;
    }

    /** The first two statements of add and remove, before the request is awaited. */
    method Begin()
      modifies this
      ensures loading && error == None && favourites == old(favourites)
    {
      loading := true;
      error := None;
    }

    /** `addFavourite(movieId)` after its request settled with `outcome`. */
    method SettleAdd(movieId: int, outcome: FetchOutcome)
      modifies this
      ensures !loading
      ensures favourites == if Succeeded(outcome) then old(favourites) + [movieId] else old(favourites)
      ensures error == if Succeeded(outcome) then old(error) else ErrorAfter(outcome)
    {
      match outcome {
        case Response(ok, _, err) =>
          if ok {
            favourites := favourites + [movieId];
          } else {
            error := err;
          }
        case Thrown(reason) =>
          error := Some(reason);
      }
      loading := false;
    }

    /** `removeFavourite(movieId)` after its request settled with `outcome`. */
    method SettleRemove(movieId: int, outcome: FetchOutcome)
      modifies this
      ensures !loading
      ensures favourites == if Succeeded(outcome) then Pull(old(favourites), movieId) else old(favourites)
      ensures error == if Succeeded(outcome) then old(error) else ErrorAfter(outcome)
    {
      match outcome {
        case Response(ok, _, err) =>
          if ok {
            favourites := Pull(favourites, movieId);
          } else {
            error := err;
          }
        case Thrown(reason) =>
          error := Some(reason);
      }
      loading := false;
    }

    /**
     * `addFavourite(movieId)` (lines 52-73): on success the id is appended
     * with no duplicate check; otherwise the list is kept and `error` set.
     */
    method AddFavourite(movieId: int, outcome: FetchOutcome)
      modifies this
      ensures !loading
      ensures favourites == if Succeeded(outcome) then old(favourites) + [movieId] else old(favourites)
      ensures error == ErrorAfter(outcome)
    {
      Begin();
      SettleAdd(movieId, outcome);
    }

    /**
     * `removeFavourite(movieId)` (lines 76-97): on success every copy of the
     * id is filtered out and the rest keep their order.
     */
    method RemoveFavourite(movieId: int, outcome: FetchOutcome)
      modifies this
      ensures !loading
      ensures favourites == if Succeeded(outcome) then Pull(old(favourites), movieId) else old(favourites)
      ensures Succeeded(outcome) ==> movieId !in favourites
      ensures error == ErrorAfter(outcome)
    {
      Begin();
      SettleRemove(movieId, outcome);
    }
  }
}
