/**
 * lib/store/auth.ts: the client-side `useAuthStore`, a store of three fields (token, user,
 * isAuthenticated) with the transitions `setAuth`, `logout` and `clearAuth`, persisted under
 * the name "auth-storage" through `partialize`.
 *
 * The store is a class whose methods overwrite its fields; `Apply` is the same transition on
 * snapshots, so that runs of several actions can be reasoned about.
 */
module AuthStore {
  import opened Wrappers
  import opened Types

  /**
   * The `User` kept by the store. `email`, `realName` and `avatar` are optional and nullable:
   * `None` is an absent key, `Some(None)` a null.
   */
  datatype StoreUser = StoreUser(
    id: string,
    username: string,
    email: Option<Option<string>>,
    realName: Option<Option<string>>,
    avatar: Option<Option<string>>,
    roles: Option<seq<Role>>)

  /** The data fields of the store (its three functions are not data). */
  datatype AuthState = AuthState(token: Option<string>, user: Option<StoreUser>, isAuthenticated: bool)

  /** `token: null, user: null, isAuthenticated: false` */
  const Initial := AuthState(None, None, false)

  datatype Action = SetAuth(token: string, user: StoreUser) | Logout | ClearAuth

  /** The state a transition leaves: each one overwrites all three fields. */
  function Apply(s: AuthState, a: Action): (next: AuthState)
    ensures a.SetAuth? ==> next.token == Some(a.token) && next.user == Some(a.user) && next.isAuthenticated
    ensures !a.SetAuth? ==> next == Initial
  {
    match a
    case SetAuth(t, u) => AuthState(Some(t), Some(u), true)
    case Logout => AuthState(None, None, false)
    case ClearAuth => AuthState(None, None, false)
  }

  /** Signed in exactly when both a token and a user are held. */
  predicate Consistent(s: AuthState) {
    s.isAuthenticated <==> s.token.Some? && s.user.Some?
  }

  /** The actions applied in order. */
  function Run(s: AuthState, actions: seq<Action>): AuthState
    decreases |actions|
  {
    if actions == [] then s else Run(Apply(s, actions[0]), actions[1..])
  }

  /** `clearAuth` has exactly the effect of `logout`, from every state. */
  lemma ClearAuthIsLogout(s: AuthState)
    ensures Apply(s, ClearAuth) == Apply(s, Logout) == Initial
  {
  }

  /** `logout` is idempotent, and `setAuth` followed by `logout` is back at the initial state. */
  lemma LogoutIdempotent(s: AuthState, t: string, u: StoreUser)
    ensures Apply(Apply(s, Logout), Logout) == Apply(s, Logout)
    ensures Apply(Apply(s, SetAuth(t, u)), Logout) == Initial
  {
  }

  /** After a non-empty run, the state is what the last action alone makes of any state. */
  lemma {:induction false} LastActionDecides(s: AuthState, actions: seq<Action>)
    requires actions != []
    ensures Run(s, actions) == Apply(Initial, actions[|actions| - 1])
    decreases |actions|
  {
    if |actions| > 1 {
      LastActionDecides(Apply(s, actions[0]), actions[1..]);
      assert actions[1..][|actions[1..]| - 1] == actions[|actions| - 1];
    }
  }

  /** Every state reachable from the initial one is consistent. */
  lemma {:induction false} RunKeepsConsistent(s: AuthState, actions: seq<Action>)
    requires Consistent(s)
    ensures Consistent(Run(s, actions))
    decreases |actions|
  {
    if actions != [] {
      RunKeepsConsistent(Apply(s, actions[0]), actions[1..]);
    }
  }

  /** What `partialize` writes to storage: exactly the three data fields. */
  datatype Persisted = Persisted(token: Option<string>, user: Option<StoreUser>, isAuthenticated: bool)

  const StorageName := "auth-storage"

  class Store {
    var token: Option<string>
    var user: Option<StoreUser>
    var isAuthenticated: bool

    function State(): AuthState
      reads this
    {
      AuthState(token, user, isAuthenticated)
    }

    constructor ()
      ensures State() == Initial
    {
      token := None;
      user := None;
      isAuthenticated := false;
    }

    method SetAuth(t: string, u: StoreUser)
      modifies this
      ensures State() == Apply(old(State()), Action.SetAuth(t, u))
      ensures Consistent(State())
    {
      token := Some(t);
      user := Some(u);
      isAuthenticated := true;
    }

    method Logout()
      modifies this
      ensures State() == Apply(old(State()), Action.Logout)
      ensures Consistent(State())
    {
      token := None;
      user := None;
      isAuthenticated := false;
    }

    method ClearAuth()
      modifies this
      ensures State() == Apply(old(State()), Action.ClearAuth)
      ensures Consistent(State())
    {
      token := None;
      user := None;
      isAuthenticated := false;
    }

    /** `partialize(state)` */
    function Partialize(): (saved: Persisted)
      reads this
      ensures saved.token == token && saved.user == user && saved.isAuthenticated == isAuthenticated
    {
      Persisted(token, user, isAuthenticated)
    }

    /** Rehydration merges the stored slice over the current state, overwriting all three fields. */
    method Rehydrate(saved: Persisted)
      modifies this
      ensures State() == AuthState(saved.token, saved.user, saved.isAuthenticated)
    {
      token := saved.token;
      user := saved.user;
      isAuthenticated := saved.isAuthenticated;
    }
  }

  /** Persisting and rehydrating gives back the state that was persisted. */
  method PersistRoundTrip(source: Store, target: Store)
    modifies target
    ensures target.State() == source.State()
  {
    var saved := source.Partialize();
    target.Rehydrate(saved);
  }
}
