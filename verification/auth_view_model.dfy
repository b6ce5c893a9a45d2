/**
 * `AuthViewModel`: the session controller. Its state is the observable UI
 * status and the current user. Each launched coroutine body runs to
 * completion on its own, so it is one event here (register and login are two:
 * the moment they set `Loading`, and the moment the repository answers).
 */
module AuthViewModel {
  import opened Wrappers
  import opened UserModel
  import ApiService

  datatype AuthUiState = Initial | Loading | Success(user: User) | Error(message: string)

  datatype State = State(uiState: AuthUiState, currentUser: Option<User>)

  /** Both state holders start empty. */
  const Init: State := State(Initial, None)

  /** The first half of `register`/`login`: publish `Loading`. */
  function BeginAuth(s: State): (r: State)
    ensures r.uiState == Loading
    ensures r.currentUser == s.currentUser
  {
    s.(uiState := Loading)
  }

  /** The second half of `register`/`login`: publish the repository's answer. */
  function CompleteAuth(s: State, result: ApiService.ApiResult<AuthResponse>): (r: State)
    ensures result.Success? ==> r.uiState == Success(result.data.user) && r.currentUser == Some(result.data.user)
    ensures result.Error? ==> r.uiState == Error(result.message) && r.currentUser == s.currentUser
    ensures result.Loading? ==> r.uiState == Loading && r.currentUser == s.currentUser
  {
    if result.Success? then State(Success(result.data.user), Some(result.data.user))
    else if result.Error? then s.(uiState := Error(result.message))
    else s.(uiState := Loading)
  }

  /** `logout`, after the repository has cleared the table. */
  function Logout(s: State): (r: State)
    ensures r.uiState == Initial && r.currentUser == None
  {
    Init
  }

  /** `clearError`: back to `Initial` from any status. */
  function ClearError(s: State): (r: State)
    ensures r.uiState == Initial
    ensures r.currentUser == s.currentUser
  {
    s.(uiState := Initial)
  }

  /** One value collected from the repository's current-user flow. */
  function OnCurrentUser(s: State, user: Option<User>): (r: State)
    ensures r.currentUser == user
    ensures user.Some? ==> r.uiState == Success(user.value)
    ensures user.None? ==> r.uiState == s.uiState
  {
    if user.Some? then State(Success(user.value), user) else s.(currentUser := None)
  }

  /** `checkLoginStatus`, once the repository has answered. */
  function OnLoginStatus(s: State, isLoggedIn: bool): (r: State)
    ensures r.currentUser == s.currentUser
    ensures !isLoggedIn ==> r.uiState == Initial
    ensures isLoggedIn ==> r == s
  {
    if isLoggedIn then s else s.(uiState := Initial)
  }

  datatype Event =
    | AuthStarted
    | AuthCompleted(result: ApiService.ApiResult<AuthResponse>)
    | LoggedOut
    | ErrorCleared
    | CurrentUserEmitted(user: Option<User>)
    | LoginStatusChecked(isLoggedIn: bool)

  function Next(s: State, e: Event): State {
    match e
    case AuthStarted => BeginAuth(s)
    case AuthCompleted(result) => CompleteAuth(s, result)
    case LoggedOut => Logout(s)
    case ErrorCleared => ClearError(s)
    case CurrentUserEmitted(user) => OnCurrentUser(s, user)
    case LoginStatusChecked(isLoggedIn) => OnLoginStatus(s, isLoggedIn)
  }

  /** The state after the events `es`, applied in order. */
  function Run(s: State, es: seq<Event>): State
    decreases |es|
  {
    if es == [] then s else Run(Next(s, es[0]), es[1..])
  }

  /** The `uiState` values published, one after each event. */
  function Trace(s: State, es: seq<Event>): (t: seq<AuthUiState>)
    ensures |t| == |es|
    ensures forall i :: 0 <= i < |es| ==> t[i] == Run(s, es[..i + 1]).uiState
    decreases |es|
  {
    if es == [] then []
    else
      var rest := Trace(Next(s, es[0]), es[1..]);
      assert forall i :: 0 < i < |es| ==> es[..i + 1][1..] == es[1..][..i];
      [Next(s, es[0]).uiState] + rest
  }

  /** The events that can publish `Success`. */
  predicate GrantsSuccess(e: Event) {
    || (e.AuthCompleted? && e.result.Success?)
    || (e.CurrentUserEmitted? && e.user.Some?)
  }

  /** The events that can change `currentUser`. */
  predicate TouchesUser(e: Event) {
    || (e.AuthCompleted? && e.result.Success?)
    || e.LoggedOut?
    || e.CurrentUserEmitted?
  }

  /**
   * `uiState` is `Success(u)` after an event only if the event granted `u`,
   * or the state already was `Success(u)` and the event left it alone.
   */
  lemma SuccessOnlyGranted(s: State, e: Event, u: User)
    requires Next(s, e).uiState == Success(u)
    ensures || (e.AuthCompleted? && e.result.Success? && e.result.data.user == u)
            || (e.CurrentUserEmitted? && e.user == Some(u))
            || (s.uiState == Success(u) && (e == LoginStatusChecked(true) || e == CurrentUserEmitted(None)))
  {
  }

  /** `uiState` is `Error(m)` after an event only if a failed call reported `m`, or it already was. */
  lemma ErrorOnlyReported(s: State, e: Event, m: string)
    requires Next(s, e).uiState == Error(m)
    ensures || (e.AuthCompleted? && e.result.Error? && e.result.message == m)
            || (s.uiState == Error(m) && (e == LoginStatusChecked(true) || e == CurrentUserEmitted(None)))
  {
  }

  /** A run of one event is that event's transition. */
  lemma RunOne(s: State, e: Event)
    ensures Run(s, [e]) == Next(s, e)
  {
    assert [e][1..] == [];
  }

  /** A run of two events, and the two states it publishes. */
  lemma RunTwo(s: State, e1: Event, e2: Event)
    ensures Run(s, [e1, e2]) == Next(Next(s, e1), e2)
    ensures Trace(s, [e1, e2]) == [Next(s, e1).uiState, Next(Next(s, e1), e2).uiState]
  {
    assert [e1, e2][1..] == [e2];
    RunOne(Next(s, e1), e2);
  }

  lemma {:induction false} RunAppend(s: State, a: seq<Event>, b: seq<Event>)
    ensures Run(s, a + b) == Run(Run(s, a), b)
    decreases |a|
  {
    if a == [] {
      assert a + b == b;
    } else {
      assert (a + b)[0] == a[0];
      assert (a + b)[1..] == a[1..] + b;
      RunAppend(Next(s, a[0]), a[1..], b);
    }
  }

  /** Whatever happened before, a logout ends in the initial state. */
  lemma LogoutResets(s: State, es: seq<Event>)
    ensures Run(s, es + [LoggedOut]) == Init
  {
    RunAppend(s, es, [LoggedOut]);
  }

  /** Without a granting event, a state that is not `Success` never becomes one. */
  lemma {:induction false} NoSuccessWithoutGrant(s: State, es: seq<Event>)
    requires !s.uiState.Success?
    requires forall i :: 0 <= i < |es| ==> !GrantsSuccess(es[i])
    ensures !Run(s, es).uiState.Success?
    decreases |es|
  {
    if es != [] {
      assert !GrantsSuccess(es[0]);
      NoSuccessWithoutGrant(Next(s, es[0]), es[1..]);
    }
  }

  /** Starting, clearing and status checks never change `currentUser`. */
  lemma {:induction false} CurrentUserStable(s: State, es: seq<Event>)
    requires forall i :: 0 <= i < |es| ==> !TouchesUser(es[i])
    ensures Run(s, es).currentUser == s.currentUser
    decreases |es|
  {
    if es != [] {
      assert !TouchesUser(es[0]);
      CurrentUserStable(Next(s, es[0]), es[1..]);
    }
  }
}
