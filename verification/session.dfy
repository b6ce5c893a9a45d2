/**
 * The controller and the repository together: each controller action runs
 * its coroutine body in order (publish, call the repository, publish), and
 * the table and the controller state move as one system.
 */
module Session {
  import opened Wrappers
  import opened UserModel
  import opened ApiService
  import opened UserDao
  import Repo = UserRepository
  import VM = AuthViewModel

  datatype System = System(store: Store, vm: VM.State)

  /** A system after one controller action, and the `uiState` values it published in order. */
  datatype Flow = Flow(system: System, published: seq<VM.AuthUiState>)

  /** The shared body of `register` and `login`: publish `Loading`, ask, publish the answer. */
  function AuthFlow(sys: System, step: Repo.Step<ApiResult<AuthResponse>>): (f: Flow)
    ensures var events := [VM.AuthStarted, VM.AuthCompleted(step.result)];
      f.system.vm == VM.Run(sys.vm, events) && f.published == VM.Trace(sys.vm, events)
    ensures f.system.vm == VM.CompleteAuth(VM.BeginAuth(sys.vm), step.result)
    ensures f.published == [VM.Loading, f.system.vm.uiState]
    ensures f.system.store == step.store
  {
    var events := [VM.AuthStarted, VM.AuthCompleted(step.result)];
    VM.RunTwo(sys.vm, VM.AuthStarted, VM.AuthCompleted(step.result));
    Flow(System(step.store, VM.Run(sys.vm, events)), VM.Trace(sys.vm, events))
  }

  /**
   * `AuthViewModel.login`: the published states are `Loading` and then the
   * outcome, with nothing skipped and nothing after; the outcome is never
   * `Loading` again because the repository never answers `Loading`.
   */
  function LoginFlow(sys: System, email: string, password: string, remote: Outcome<AuthResponse>, storeOk: bool)
    : (f: Flow)
    ensures |f.published| == 2 && f.published[0] == VM.Loading
    ensures f.published[1] == f.system.vm.uiState
    ensures f.published[1].Success? <==> remote.Ok?
    ensures f.published[1].Error? <==> remote.Fail?
    ensures remote.Ok? ==> f.system.vm == VM.State(VM.Success(remote.value.user), Some(remote.value.user))
    ensures remote.Ok? && storeOk ==> GetUserById(f.system.store, remote.value.user.id) == Some(remote.value.user)
    ensures remote.Fail? ==> f.system.vm.uiState == VM.Error(remote.message.GetOr(Repo.LoginFailed))
    ensures remote.Fail? ==> f.system.vm.currentUser == sys.vm.currentUser && f.system.store == sys.store
  {
    AuthFlow(sys, Repo.Login(sys.store, LoginRequest(email, password), remote, storeOk))
  }

  /** `AuthViewModel.register`, with the same guarantees as `LoginFlow`. */
  function RegisterFlow(sys: System, email: string, password: string, name: string,
                        remote: Outcome<AuthResponse>, storeOk: bool)
    : (f: Flow)
    ensures |f.published| == 2 && f.published[0] == VM.Loading
    ensures f.published[1] == f.system.vm.uiState
    ensures f.published[1].Success? <==> remote.Ok?
    ensures f.published[1].Error? <==> remote.Fail?
    ensures remote.Ok? ==> f.system.vm == VM.State(VM.Success(remote.value.user), Some(remote.value.user))
    ensures remote.Ok? && storeOk ==> GetUserById(f.system.store, remote.value.user.id) == Some(remote.value.user)
    ensures remote.Fail? ==> f.system.vm.uiState == VM.Error(remote.message.GetOr(Repo.RegisterFailed))
    ensures remote.Fail? ==> f.system.vm.currentUser == sys.vm.currentUser && f.system.store == sys.store
  {
    AuthFlow(sys, Repo.Register(sys.store, RegisterRequest(email, password, name), remote, storeOk))
  }

  /**
   * `AuthViewModel.logout`: the controller is back to its initial state
   * whatever happened before, and the table is empty unless its deletion failed.
   */
  function LogoutFlow(sys: System, storeOk: bool): (r: System)
    ensures r.vm == VM.Init
    ensures storeOk ==> forall id :: !UserExists(r.store, id)
    ensures !storeOk ==> r.store == sys.store
  {
    VM.RunOne(sys.vm, VM.LoggedOut);
    System(Repo.Logout(sys.store, storeOk), VM.Run(sys.vm, [VM.LoggedOut]))
  }

  /**
   * The controller's start from the empty state: it subscribes to the
   * current-user flow and checks the login status. The two answers may arrive
   * in either order. The current user is always the flow's single emission;
   * the status is `Success` of that user only if the user was emitted and no
   * negative status check came after it, and `Initial` otherwise.
   */
  function Startup(store: Store, emitOk: bool, checkOk: bool, emissionFirst: bool): (r: VM.State)
    ensures r.currentUser == Repo.GetCurrentUser(store, emitOk)[0]
    ensures r.uiState == VM.Initial || (r.currentUser.Some? && r.uiState == VM.Success(r.currentUser.value))
    ensures !emissionFirst ==> (r.uiState.Success? <==> r.currentUser.Some?)
    ensures emissionFirst ==> (r.uiState.Success? <==> r.currentUser.Some? && Repo.IsUserLoggedIn(store, checkOk))
  {
    var emitted := VM.CurrentUserEmitted(Repo.GetCurrentUser(store, emitOk)[0]);
    var checked := VM.LoginStatusChecked(Repo.IsUserLoggedIn(store, checkOk));
    VM.RunTwo(VM.Init, emitted, checked);
    VM.RunTwo(VM.Init, checked, emitted);
    VM.Run(VM.Init, if emissionFirst then [emitted, checked] else [checked, emitted])
  }

  /**
   * When both table calls succeed, the order of the two answers does not
   * matter: a stored signed-in user is shown as `Success`, otherwise the
   * controller stays `Initial` with no user.
   */
  lemma StartupOrderIrrelevant(store: Store)
    ensures Startup(store, true, true, true) == Startup(store, true, true, false)
    ensures Repo.CurrentUserId in store ==>
      Startup(store, true, true, true) == VM.State(VM.Success(store[Repo.CurrentUserId]), Some(store[Repo.CurrentUserId]))
    ensures Repo.CurrentUserId !in store ==> Startup(store, true, true, true) == VM.Init
  {
  }

  /**
   * A failed status check racing a successful lookup: if the user arrives
   * first the check then resets the status to `Initial` while the user stays
   * set; in the other order the status ends as `Success`.
   */
  lemma StartupOrderMattersOnFailedCheck(store: Store)
    requires Repo.CurrentUserId in store
    ensures var u := store[Repo.CurrentUserId];
      && Startup(store, true, false, true) == VM.State(VM.Initial, Some(u))
      && Startup(store, true, false, false) == VM.State(VM.Success(u), Some(u))
  {
  }

  /**
   * `currentUser` is not tied to the row under the signed-in id: a login as
   * user "1" sets it, while the row under "current_user_id" stays absent.
   */
  lemma CurrentUserNotTiedToActiveId()
    ensures var user := User("1", "a@b.com", "A", None, false, 0, 0);
      var f := LoginFlow(System(DeleteAllUsers(), VM.Init), "a@b.com", "pw", Ok(AuthResponse(user, "tok")), true);
      && f.system.vm.currentUser == Some(user)
      && !Repo.IsUserLoggedIn(f.system.store, true)
  {
  }
}
