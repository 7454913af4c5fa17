/**
 * `authReducer` and `initialAuthState` of client/src/Context/AuthContext.tsx:
 * the client's session state, changed only by dispatched actions.
 */
module AuthContext {
  import opened Results

  /** The user object the client keeps: what POST /login answered. */
  datatype User = User(username: string, token: string)

  datatype AuthState = AuthState(user: Option<User>)

  /** LOGIN and LOGOUT; `Other` is any action the switch does not name. */
  datatype AuthAction = Login(payload: User) | Logout | Other(kind: string)

  /** `initialAuthState`: nobody is logged in. */
  function InitialAuthState(): (s: AuthState)
    ensures s.user.None?
  {
    AuthState(None)
  }

  /** `authReducer(state, action)`. */
  function AuthReducer(state: AuthState, action: AuthAction): (r: AuthState)
    ensures action.Login? ==> r.user == Some(action.payload)
    ensures action.Logout? ==> r == InitialAuthState()
    ensures action.Other? ==> r == state
  {
    match action
    case Login(payload) => AuthState(Some(payload))
    case Logout => AuthState(None)
    case Other(_) => state
  }

  /** Dispatching the same action twice is the same as dispatching it once. */
  lemma ReducerIdempotent(state: AuthState, action: AuthAction)
    ensures AuthReducer(AuthReducer(state, action), action) == AuthReducer(state, action)
  {
  }

  /** The state `useReducer` holds after a sequence of dispatches. */
  function Replay(state: AuthState, actions: seq<AuthAction>): AuthState {
    if actions == [] then state
    else AuthReducer(Replay(state, actions[..|actions| - 1]), actions[|actions| - 1])
  }

  /** The last LOGIN or LOGOUT among the actions, if there is one. */
  function LastAuthAction(actions: seq<AuthAction>): (r: Option<AuthAction>)
    ensures r.Some? ==> !r.value.Other?
    ensures r.Some? ==>
      exists i | 0 <= i < |actions| :: actions[i] == r.value && forall j | i < j < |actions| :: actions[j].Other?
    ensures r.None? ==> forall i | 0 <= i < |actions| :: actions[i].Other?
  {
    if actions == [] then None
    else if !actions[|actions| - 1].Other? then Some(actions[|actions| - 1])
    else
      var prefix := actions[..|actions| - 1];
      var r := LastAuthAction(prefix);
      assert forall j | 0 <= j < |prefix| :: prefix[j] == actions[j];
      r
  }

  /**
   * Whoever is logged in after a run of dispatches is decided by the last
   * LOGIN or LOGOUT alone; with neither, the state is the one started from.
   */
  lemma {:induction false} LastActionDecides(state: AuthState, actions: seq<AuthAction>)
    ensures Replay(state, actions) ==
      match LastAuthAction(actions)
      case None => state
      case Some(a) => AuthReducer(state, a)
  {
    if actions != [] {
      LastActionDecides(state, actions[..|actions| - 1]);
    }
  }
}
