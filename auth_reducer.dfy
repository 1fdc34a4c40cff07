/**
 * The client's authentication state and `authReducer`, the pure reducer the
 * app's auth context dispatches to. `null` is `None`.
 */
module AuthReducer {
  import opened Wrappers

  datatype User = User(id: int, email: string, nickname: string, profileImage: Option<string>)

  datatype AuthState = AuthState(user: Option<User>, isLoading: bool, isAuthenticated: bool)

  /** The actions the reducer knows, and any other action type it may be sent. */
  datatype AuthAction =
    | SetUser(user: User)
    | SetLoading(loading: bool)
    | Logout
    | RestoreSession(restored: Option<User>)
    | Other(actionType: string)

  /** The state the provider starts from. */
  const Initial: AuthState := AuthState(None, true, false)

  /** Being authenticated means holding a user. */
  predicate Consistent(s: AuthState) {
    s.isAuthenticated <==> s.user.Some?
  }

  function Reduce(state: AuthState, action: AuthAction): AuthState {
    match action
    case SetUser(u) => state.(user := Some(u), isAuthenticated := true, isLoading := false)
    case SetLoading(b) => state.(isLoading := b)
    case Logout => AuthState(None, false, false)
    case RestoreSession(p) => AuthState(p, false, p.Some?)
    case Other(_) => state
  }

  /** The state after dispatching a sequence of actions in order. */
  function ReduceAll(state: AuthState, actions: seq<AuthAction>): AuthState
    decreases |actions|
  {
    if actions == [] then state else ReduceAll(Reduce(state, actions[0]), actions[1..])
  }

  /** What each action does to the state, and what it leaves alone. */
  lemma ReduceEffects(state: AuthState, action: AuthAction)
    ensures var t := Reduce(state, action);
      && (action.SetUser? ==> t.user == Some(action.user) && t.isAuthenticated && !t.isLoading)
      && (action.SetLoading? ==> t.isLoading == action.loading && t.user == state.user
                                 && t.isAuthenticated == state.isAuthenticated)
      && (action.Logout? ==> t.user.None? && !t.isAuthenticated && !t.isLoading)
      && (action.RestoreSession? ==> t.user == action.restored && !t.isLoading
                                     && (t.isAuthenticated <==> action.restored.Some?))
      && (action.Other? ==> t == state)
  {
  }

  /** Every action keeps `isAuthenticated` in step with holding a user. */
  lemma ReducePreserves(state: AuthState, action: AuthAction)
    requires Consistent(state)
    ensures Consistent(Reduce(state, action))
  {
  }

  lemma InitialConsistent()
    ensures Consistent(Initial) && Initial.user.None? && Initial.isLoading && !Initial.isAuthenticated
  {
  }

  /** From the initial state, any sequence of dispatches keeps the invariant. */
  lemma {:induction false} ReduceAllPreserves(state: AuthState, actions: seq<AuthAction>)
    requires Consistent(state)
    ensures Consistent(ReduceAll(state, actions))
    decreases |actions|
  {
    if actions != [] {
      ReducePreserves(state, actions[0]);
      ReduceAllPreserves(Reduce(state, actions[0]), actions[1..]);
    }
  }

  /** Logging out, whatever came before, leaves nobody signed in and nothing loading. */
  lemma LogoutResets(state: AuthState, actions: seq<AuthAction>)
    ensures ReduceAll(state, actions + [Logout]) == AuthState(None, false, false)
  {
    ReduceAllSnoc(state, actions, Logout);
  }

  lemma {:induction false} ReduceAllSnoc(state: AuthState, actions: seq<AuthAction>, a: AuthAction)
    ensures ReduceAll(state, actions + [a]) == Reduce(ReduceAll(state, actions), a)
    decreases |actions|
  {
    if actions == [] {
      assert [] + [a] == [a];
      assert [a][1..] == [];
    } else {
      assert (actions + [a])[0] == actions[0];
      assert (actions + [a])[1..] == actions[1..] + [a];
      ReduceAllSnoc(Reduce(state, actions[0]), actions[1..], a);
    }
  }
}
