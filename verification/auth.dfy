/**
 * The session state kept by the auth provider: the current user and the
 * loading flag, with the transitions of the session check, login,
 * register and logout. API calls are events whose outcome is a parameter;
 * navigation is returned as the path the provider asks the router for.
 */
module Auth {
  import opened Wrappers
  import opened Types

  /**
   * A response payload as `resolveUser` sees it: falsy (null, an empty
   * body), or a truthy value whose `user` field is either a user object or
   * missing/falsy (None).
   */
  datatype Payload = Falsy | Truthy(user: Option<User>)

  /** `resolveUser`: the payload's user, or no user. */
  function ResolveUser(payload: Payload): (r: Option<User>)
    ensures payload.Falsy? ==> r == None
    ensures payload.Truthy? && payload.user.Some? ==> r == payload.user
    ensures payload.Truthy? && payload.user.None? ==> r == None
  {
    match payload
    case Falsy => None
    case Truthy(u) => if u.Some? then u else None
  }

  /** A user is never invented: resolving yields a user only when the payload carries one. */
  lemma ResolveUserSound(payload: Payload, u: User)
    ensures ResolveUser(payload) == Some(u) <==> payload == Truthy(Some(u))
  {
  }

  datatype AuthState = AuthState(user: Option<User>, isLoading: bool)

  /** The provider's state on first render: no user, loading. */
  const Initial := AuthState(None, true)

  /** Outcome of one API call: its response data, or the error it threw. */
  datatype CallOutcome = Succeeded(data: Payload) | Failed(error: string)

  /** What a login/register call settles into: new state, navigation, rethrown error. */
  datatype Step = Step(state: AuthState, navigateTo: Option<string>, rethrown: Option<string>)

  const MeEndpoint := "/auth/me"
  const LoginEndpoint := "/auth/login"
  const RegisterEndpoint := "/auth/register"
  const LogoutEndpoint := "/auth/logout"

  /** Every call begins by raising the loading flag. */
  function BeginCall(s: AuthState): (r: AuthState)
    ensures r.isLoading && r.user == s.user
  {
    s.(isLoading := true)
  }

  /**
   * The session check (`loadMe`) settling. When the provider is still
   * mounted the user follows the outcome and loading ends; once it is
   * unmounted the settle touches nothing.
   */
  function SessionSettled(s: AuthState, mounted: bool, outcome: CallOutcome): (r: AuthState)
    ensures !mounted ==> r == s
    ensures mounted ==> !r.isLoading
    ensures mounted && outcome.Failed? ==> r.user == None
    ensures mounted && outcome.Succeeded? ==> r.user == ResolveUser(outcome.data)
  {
    if !mounted then s
    else
      match outcome
      case Succeeded(data) => AuthState(ResolveUser(data), false)
      case Failed(_) => AuthState(None, false)
  }

  /**
   * Login and register settle the same way: on success the resolved user
   * is stored and the router goes to "/"; on failure the error is rethrown
   * and the user is left as it was. Loading ends either way.
   */
  function CredentialsSettled(s: AuthState, outcome: CallOutcome): (r: Step)
    ensures !r.state.isLoading
    ensures outcome.Succeeded? ==>
              r.state.user == ResolveUser(outcome.data) && r.navigateTo == Some("/") && r.rethrown == None
    ensures outcome.Failed? ==>
              r.state.user == s.user && r.navigateTo == None && r.rethrown == Some(outcome.error)
  {
    match outcome
    case Succeeded(data) => Step(AuthState(ResolveUser(data), false), Some("/"), None)
    case Failed(e) => Step(AuthState(s.user, false), None, Some(e))
  }

  /** `login`: raise the loading flag, post to the login endpoint, settle. */
  function Login(s: AuthState, outcome: CallOutcome): (r: Step)
    ensures !r.state.isLoading
    ensures outcome.Succeeded? ==>
              r.state.user == ResolveUser(outcome.data) && r.navigateTo == Some("/") && r.rethrown == None
    ensures outcome.Failed? ==>
              r.state.user == s.user && r.navigateTo == None && r.rethrown == Some(outcome.error)
  {
    CredentialsSettled(BeginCall(s), outcome)
  }

  /** `register`: the same sequence against the register endpoint. */
  function Register(s: AuthState, outcome: CallOutcome): (r: Step)
    ensures !r.state.isLoading
    ensures outcome.Succeeded? ==>
              r.state.user == ResolveUser(outcome.data) && r.navigateTo == Some("/") && r.rethrown == None
    ensures outcome.Failed? ==>
              r.state.user == s.user && r.navigateTo == None && r.rethrown == Some(outcome.error)
  {
    CredentialsSettled(BeginCall(s), outcome)
  }

  /**
   * Logout clears the user at once and sends the router to "/login"; the
   * server's answer to the logout call is only logged.
   */
  function Logout(s: AuthState, serverOutcome: CallOutcome): (r: Step)
    ensures r.state.user == None && r.state.isLoading == s.isLoading
    ensures r.navigateTo == Some("/login") && r.rethrown == None
  {
    Step(AuthState(None, s.isLoading), Some("/login"), None)
  }

  /** Login and register differ only in their endpoint: the state they reach is the same. */
  lemma LoginRegisterAgree(s: AuthState, outcome: CallOutcome)
    ensures Login(s, outcome) == Register(s, outcome)
  {
  }

  /** The server's logout answer never changes what logout does. */
  lemma LogoutIgnoresServer(s: AuthState, a: CallOutcome, b: CallOutcome)
    ensures Logout(s, a) == Logout(s, b)
  {
  }

  /** Events the provider reacts to, in the order they happen. */
  datatype Event =
    | SessionCheck(mounted: bool, outcome: CallOutcome)
    | LoginCall(outcome: CallOutcome)
    | RegisterCall(outcome: CallOutcome)
    | LogoutCall(outcome: CallOutcome)

  function Apply(s: AuthState, e: Event): AuthState {
    match e
    case SessionCheck(mounted, outcome) => SessionSettled(BeginCall(s), mounted, outcome)
    case LoginCall(outcome) => Login(s, outcome).state
    case RegisterCall(outcome) => Register(s, outcome).state
    case LogoutCall(outcome) => Logout(s, outcome).state
  }

  function Run(s: AuthState, events: seq<Event>): AuthState
    decreases |events|
  {
    if |events| == 0 then s else Run(Apply(s, events[0]), events[1..])
  }

  /** Run is event-by-event: one more event applies to the state the run reached. */
  lemma {:induction false} RunSnoc(s: AuthState, events: seq<Event>, e: Event)
    ensures Run(s, events + [e]) == Apply(Run(s, events), e)
    decreases |events|
  {
    if |events| == 0 {
      assert events + [e] == [e];
    } else {
      assert (events + [e])[1..] == events[1..] + [e];
      RunSnoc(Apply(s, events[0]), events[1..], e);
    }
  }

  /** A session check that settles after unmount leaves the flag it raised. */
  predicate StrandsLoading(e: Event) {
    e.SessionCheck? && !e.mounted
  }

  /** Every event after position i is a logout. */
  predicate OnlyLogoutsAfter(events: seq<Event>, i: int) {
    forall j :: 0 <= j < |events| && i < j ==> events[j].LogoutCall?
  }

  /**
   * Logout leaves the loading flag alone, so the flag after any history is
   * decided by the last event that is not a logout: loading exactly when
   * that event is a session check that settled after unmount, or, when
   * there is no such event, when the provider started out loading.
   */
  lemma {:induction false} RunLoading(s: AuthState, events: seq<Event>)
    ensures Run(s, events).isLoading <==>
              || (OnlyLogoutsAfter(events, -1) && s.isLoading)
              || (exists i :: 0 <= i < |events| && StrandsLoading(events[i]) && OnlyLogoutsAfter(events, i))
    decreases |events|
  {
    if |events| > 0 {
      var n := |events| - 1;
      var front, e := events[..n], events[n];
      assert events == front + [e];
      RunSnoc(s, front, e);
      RunLoading(s, front);
      var t := Run(s, front);
      if e.LogoutCall? {
        assert Run(s, events).isLoading == t.isLoading;
        assert OnlyLogoutsAfter(events, -1) == OnlyLogoutsAfter(front, -1);
        forall i | 0 <= i < n
          ensures OnlyLogoutsAfter(events, i) == OnlyLogoutsAfter(front, i)
        {
        }
        assert !StrandsLoading(events[n]);
      } else if StrandsLoading(e) {
        assert Run(s, events).isLoading;
        assert StrandsLoading(events[n]) && OnlyLogoutsAfter(events, n);
      } else {
        assert !Run(s, events).isLoading;
        assert !events[n].LogoutCall?;
        assert !OnlyLogoutsAfter(events, -1);
        forall i | 0 <= i < |events| && StrandsLoading(events[i])
          ensures !OnlyLogoutsAfter(events, i)
        {
          assert i < n;
        }
      }
    }
  }

  /** The user a successful call that settles supplies, if any. */
  function Supplied(e: Event): Option<User> {
    match e
    case SessionCheck(mounted, outcome) =>
      if mounted && outcome.Succeeded? then ResolveUser(outcome.data) else None
    case LoginCall(outcome) => if outcome.Succeeded? then ResolveUser(outcome.data) else None
    case RegisterCall(outcome) => if outcome.Succeeded? then ResolveUser(outcome.data) else None
    case LogoutCall(_) => None
  }

  /** No event after position i is a logout. */
  predicate NoLogoutAfter(events: seq<Event>, i: int) {
    forall j :: 0 <= j < |events| && i < j ==> !events[j].LogoutCall?
  }

  /**
   * A user is never left over from before a logout: a user the provider
   * holds after any history either was there at the start with no logout
   * since, or was supplied by a successful call with no logout after it.
   */
  lemma {:induction false} RunUserProvenance(s: AuthState, events: seq<Event>)
    ensures var u := Run(s, events).user;
            u.Some? ==>
              || (u == s.user && NoLogoutAfter(events, -1))
              || (exists i :: 0 <= i < |events| && Supplied(events[i]) == u && NoLogoutAfter(events, i))
    decreases |events|, 1
  {
    var u := Run(s, events).user;
    if |events| > 0 && u.Some? {
      var n := |events| - 1;
      var front, e := events[..n], events[n];
      assert events == front + [e];
      RunSnoc(s, front, e);
      var t := Run(s, front);
      match e
      case LogoutCall(_) =>
      case SessionCheck(mounted, outcome) =>
        if mounted {
          assert Supplied(events[n]) == u && NoLogoutAfter(events, n);
        } else {
          UserCarriesOver(s, front, e);
        }
      case LoginCall(outcome) =>
        if outcome.Succeeded? {
          assert Supplied(events[n]) == u && NoLogoutAfter(events, n);
        } else {
          UserCarriesOver(s, front, e);
        }
      case RegisterCall(outcome) =>
        if outcome.Succeeded? {
          assert Supplied(events[n]) == u && NoLogoutAfter(events, n);
        } else {
          UserCarriesOver(s, front, e);
        }
    }
  }

  /** An event that is not a logout and keeps the user extends the provenance of the run before it. */
  lemma {:induction false} UserCarriesOver(s: AuthState, front: seq<Event>, e: Event)
    requires !e.LogoutCall?
    requires Apply(Run(s, front), e).user == Run(s, front).user
    ensures var u := Run(s, front).user;
            u.Some? ==>
              || (u == s.user && NoLogoutAfter(front + [e], -1))
              || (exists i :: 0 <= i < |front| + 1 && Supplied((front + [e])[i]) == u && NoLogoutAfter(front + [e], i))
    decreases |front| + 1, 0
  {
    var events := front + [e];
    var u := Run(s, front).user;
    RunUserProvenance(s, front);
    if u.Some? {
      if u == s.user && NoLogoutAfter(front, -1) {
        assert NoLogoutAfter(events, -1);
      } else {
        var i :| 0 <= i < |front| && Supplied(front[i]) == u && NoLogoutAfter(front, i);
        assert events[i] == front[i];
        assert NoLogoutAfter(events, i);
      }
    }
  }
}
