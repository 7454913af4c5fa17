/**
 * The `requireAuth` middleware of server/src/middleware/requireAuth.ts: read
 * the Authorization header, take its second space-separated field as the
 * token, verify it, look the user up by id, and then either answer 401 or
 * set `req.user` and call `next` once.
 *
 * `jwt.verify` with the server secret enters as a function value from a
 * token to the id it carries, or `None` where the library throws.
 */
module RequireAuth {
  import opened Results
  import opened Lists
  import opened UserModel
  import opened Server

  /** `s.split(" ")`: the fields between single spaces, empty ones included. */
  function Fields(s: string): (r: seq<string>)
    ensures |r| >= 1
    ensures |r| == 1 <==> ' ' !in s
    decreases |s|
  {
    var i := IndexOf(s, ' ');
    if i == -1 then [s] else [s[..i]] + Fields(s[i + 1..])
  }

  /** `fields.join(" ")`. */
  function Join(fields: seq<string>): string
    requires |fields| >= 1
  {
    if |fields| == 1 then fields[0] else fields[0] + " " + Join(fields[1..])
  }

  lemma JoinCons(head: string, fields: seq<string>)
    requires |fields| >= 1
    ensures Join([head] + fields) == head + " " + Join(fields)
  {
    assert ([head] + fields)[1..] == fields;
  }

  /** A string is the part before a space, the space, and the part after it. */
  lemma AroundSpace(s: string, i: nat)
    requires i < |s| && s[i] == ' '
    ensures s[..i] + " " + s[i + 1..] == s
  {
    assert s == s[..i] + [s[i]] + s[i + 1..];
  }

  /** Splitting and joining again gives back the header. */
  lemma {:induction false} JoinFields(s: string)
    ensures Join(Fields(s)) == s
    decreases |s|
  {
    var i := IndexOf(s, ' ');
    if i != -1 {
      var head, rest := s[..i], s[i + 1..];
      assert Fields(s) == [head] + Fields(rest);
      JoinFields(rest);
      JoinCons(head, Fields(rest));
      assert Join(Fields(s)) == head + " " + rest;
      AroundSpace(s, i);
    }
  }

  /** Joining fields that hold no space and splitting again gives back the fields. */
  lemma {:induction false} FieldsJoin(fields: seq<string>)
    requires |fields| >= 1
    requires forall i | 0 <= i < |fields| :: ' ' !in fields[i]
    ensures Fields(Join(fields)) == fields
  {
    if |fields| > 1 {
      var s := Join(fields);
      var head := fields[0];
      assert s == head + " " + Join(fields[1..]);
      assert s[|head|] == ' ';
      assert s[..|head|] == head;
      assert IndexOf(s, ' ') == |head|;
      assert s[|head| + 1..] == Join(fields[1..]);
      FieldsJoin(fields[1..]);
    }
  }

  /** `authorization.split(" ")[1]`; `None` stands for `undefined`. */
  function BearerToken(authorization: string): (r: Option<string>)
    ensures r.None? <==> ' ' !in authorization
  {
    var fields := Fields(authorization);
    if |fields| >= 2 then Some(fields[1]) else None
  }

  /** "Bearer abc" gives "abc": the token is whatever follows the first space, up to the next one. */
  lemma BearerTokenOf(scheme: string, token: string)
    requires ' ' !in scheme && ' ' !in token
    ensures BearerToken(scheme + " " + token) == Some(token)
  {
    assert Join([scheme, token]) == scheme + " " + token by {
      assert [scheme, token][1..] == [token];
    }
    FieldsJoin([scheme, token]);
  }

  /** The three ways the guard turns a request away, each answered 401. */
  datatype Denial = TokenRequired | NotAuthorized | UserNotFound

  function DenialMessage(d: Denial): string {
    match d
    case TokenRequired => "Authorization token required"
    case NotAuthorized => "Request is not authorized"
    case UserNotFound => "User not found"
  }

  /** The answer the guard sends when it turns a request away. */
  function Unauthorized(d: Denial): Reply {
    Reply(401, ErrorBody(DenialMessage(d)))
  }

  /** The guard's decision: turn the request away, or let it through as `user`. */
  datatype Verdict = Reject(denial: Denial) | Proceed(user: Id)

  /**
   * The token `jwt.verify` is given, when it is one it can accept: the
   * second field of the header, neither `undefined` nor empty.
   */
  function TokenOf(authorization: string): (r: Option<string>)
    ensures r.Some? ==> r.value != "" && BearerToken(authorization) == r
    ensures r.None? <==> BearerToken(authorization).None? || BearerToken(authorization) == Some("")
  {
    var token := BearerToken(authorization);
    if token.Some? && token.value != "" then token else None
  }

  /**
   * The decision `requireAuth` makes for a header, given what `jwt.verify`
   * answers and what the collection holds.  `jwt.verify` throws on an
   * `undefined` or empty token, which the handler's `catch` turns into 401.
   */
  function Decide(authorization: Option<string>, verify: string -> Option<Id>,
                  accounts: map<string, Account>, ids: map<Id, string>): (v: Verdict)
    ensures (authorization.None? || authorization == Some("")) <==> v == Reject(TokenRequired)
    ensures v == Reject(UserNotFound) <==>
      && authorization.Some? && TokenOf(authorization.value).Some?
      && verify(TokenOf(authorization.value).value).Some?
      && FindById(accounts, ids, verify(TokenOf(authorization.value).value).value).None?
    ensures v.Proceed? ==>
      && authorization.Some? && TokenOf(authorization.value).Some?
      && verify(TokenOf(authorization.value).value) == Some(v.user)
      && FindById(accounts, ids, v.user).Some?
    ensures authorization.Some? && TokenOf(authorization.value).Some? ==>
      var id := verify(TokenOf(authorization.value).value);
      id.Some? && FindById(accounts, ids, id.value).Some? ==> v == Proceed(id.value)
  {
    if authorization.None? || authorization.value == "" then Reject(TokenRequired)
    else
      var token := TokenOf(authorization.value);
      if token.None? then Reject(NotAuthorized)
      else
        var id := verify(token.value);
        if id.None? then Reject(NotAuthorized)
        else if FindById(accounts, ids, id.value).None? then Reject(UserNotFound)
        else Proceed(id.value)
  }

  /** A token that verifies to an id no account has is answered "User not found". */
  lemma UnknownUserRejected(scheme: string, token: string, verify: string -> Option<Id>,
                            accounts: map<string, Account>, ids: map<Id, string>, id: Id)
    requires ' ' !in scheme && ' ' !in token && token != ""
    requires verify(token) == Some(id) && FindById(accounts, ids, id).None?
    ensures Decide(Some(scheme + " " + token), verify, accounts, ids) == Reject(UserNotFound)
  {
    BearerTokenOf(scheme, token);
  }

  /** A "<scheme> <token>" header whose token does not verify is answered "Request is not authorized". */
  lemma BadTokenRejected(scheme: string, token: string, verify: string -> Option<Id>,
                         accounts: map<string, Account>, ids: map<Id, string>)
    requires ' ' !in scheme && ' ' !in token && verify(token).None?
    ensures Decide(Some(scheme + " " + token), verify, accounts, ids) == Reject(NotAuthorized)
  {
    BearerTokenOf(scheme, token);
  }

  /** A header with no space has no second field, so there is no token to verify. */
  lemma MissingTokenRejected(authorization: string, verify: string -> Option<Id>,
                             accounts: map<string, Account>, ids: map<Id, string>)
    requires authorization != "" && ' ' !in authorization
    ensures Decide(Some(authorization), verify, accounts, ids) == Reject(NotAuthorized)
  {
  }

  /** The parts of the Express request the guard reads and writes. */
  class AuthRequest {
    const authorization: Option<string>
    var user: Option<Id>

    constructor (authorization: Option<string>)
      ensures this.authorization == authorization && user == None
    {
      this.authorization := authorization;
      user := None;
    }
  }

  /**
   * `requireAuth(req, res, next)`.  `response` is what was sent with
   * `res.status(..).json(..)`, `nextCalls` how many times `next` ran.  The
   * lookup selects `_id` only, so `req.user` carries just the id.
   */
  method Guard(req: AuthRequest, db: UserStore, verify: string -> Option<Id>)
    returns (response: Option<Reply>, nextCalls: nat)
    modifies req
    ensures response.Some? <==> nextCalls == 0
    ensures nextCalls <= 1
    ensures match Decide(req.authorization, verify, db.accounts, db.ids)
      case Reject(denial) => response == Some(Unauthorized(denial)) && req.user == old(req.user)
      case Proceed(id) => response == None && nextCalls == 1 && req.user == Some(id)
  {
    nextCalls := 0;
    if req.authorization.None? || req.authorization.value == "" {
      return Some(Unauthorized(TokenRequired)), 0;
    }
    var token := BearerToken(req.authorization.value);
    if token.None? || token.value == "" {
      return Some(Unauthorized(NotAuthorized)), 0;
    }
    var claims := verify(token.value);
    if claims.None? {
      return Some(Unauthorized(NotAuthorized)), 0;
    }
    var user := FindById(db.accounts, db.ids, claims.value);
    if user.None? {
      return Some(Unauthorized(UserNotFound)), 0;
    }
    req.user := Some(user.value.id);
    nextCalls := nextCalls + 1;
    response := None;
  }
}
