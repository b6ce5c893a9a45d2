/**
 * `UserRepositoryImpl`: each operation calls the remote client and then the
 * local table. The remote call's outcome and the table call's success are
 * inputs; every operation is a pure function from the table and those inputs
 * to the new table and the operation's result. No failure escapes: a failed
 * call becomes `Error(message)` or a safe default.
 */
module UserRepository {
  import opened Wrappers
  import opened UserModel
  import opened ApiService
  import opened UserDao

  /** The hard-coded id of the signed-in user. */
  const CurrentUserId: string := "current_user_id"

  /** The hard-coded credential sent with profile requests. */
  const BearerToken: string := "Bearer token"

  /** Messages used when the remote failure carries no message of its own. */
  const RegisterFailed: string := "註冊失敗"
  const LoginFailed: string := "登入失敗"
  const GetProfileFailed: string := "獲取用戶資料失敗"
  const UpdateProfileFailed: string := "更新用戶資料失敗"

  /** The table after an operation, its result, and the remote requests it sent in order. */
  datatype Step<+T> = Step(store: Store, result: T, calls: seq<Call>)

  /** `e.message ?: default`: the exception's message, or the operation's default when null. */
  function ErrorOf<T>(message: Option<string>, default: string): (r: ApiResult<T>)
    ensures r.Error? && r.code == None
    ensures message.Some? ==> r.message == message.value
    ensures message.None? ==> r.message == default
  {
    Error(message.GetOr(default), None)
  }

  /**
   * `saveUserToLocal`: upsert `u`; a failing table call is swallowed and
   * leaves the table as it was.
   */
  function SaveUserToLocal(s: Store, u: User, storeOk: bool): (r: Store)
    ensures storeOk ==> GetUserById(r, u.id) == Some(u)
    ensures storeOk ==> forall id :: id != u.id ==> GetUserById(r, id) == GetUserById(s, id)
    ensures !storeOk ==> r == s
  {
    if storeOk then InsertUser(s, u) else s
  }

  /** `getUserFromLocal`: the row for `id`, or null when absent or when the table call fails. */
  function GetUserFromLocal(s: Store, id: string, storeOk: bool): (r: Option<User>)
    ensures r.Some? <==> storeOk && UserExists(s, id)
    ensures r.Some? ==> r.value.id == id && GetUserById(s, id) == r
  {
    if storeOk then GetUserById(s, id) else None
  }

  /** `clearLocalUserData`: delete every row; a failing table call is swallowed. */
  function ClearLocalUserData(s: Store, storeOk: bool): (r: Store)
    ensures storeOk ==> forall id :: !UserExists(r, id)
    ensures !storeOk ==> r == s
  {
    if storeOk then DeleteAllUsers() else s
  }

  /** `logout`: clear the local data; never signals an error. */
  function Logout(s: Store, storeOk: bool): (r: Store)
    ensures storeOk ==> |r| == 0
    ensures !storeOk ==> r == s
  {
    ClearLocalUserData(s, storeOk)
  }

  /** `isUserLoggedIn`: whether the signed-in user's row exists; false when the table call fails. */
  function IsUserLoggedIn(s: Store, storeOk: bool): (r: bool)
    ensures r <==> storeOk && UserExists(s, CurrentUserId)
  {
    if storeOk then UserExists(s, CurrentUserId) else false
  }

  /**
   * `getCurrentUser`: a flow that emits exactly one value, the signed-in
   * user's row, or null when the lookup fails.
   */
  function GetCurrentUser(s: Store, storeOk: bool): (emitted: seq<Option<User>>)
    ensures |emitted| == 1
    ensures emitted[0] == GetUserFromLocal(s, CurrentUserId, storeOk)
  {
    if storeOk then [GetUserById(s, CurrentUserId)] else [None]
  }

  /**
   * The shared shape of `register` and `login`: on success cache the returned
   * user and hand back the whole response; on failure report the message and
   * leave the table alone.
   */
  function Authenticate(s: Store, call: Call, remote: Outcome<AuthResponse>, storeOk: bool, default: string)
    : (st: Step<ApiResult<AuthResponse>>)
    ensures st.calls == [call]
    ensures st.result.Success? <==> remote.Ok?
    ensures remote.Ok? ==> st.result.data == remote.value
    ensures remote.Ok? && storeOk ==> GetUserById(st.store, remote.value.user.id) == Some(remote.value.user)
    ensures remote.Ok? && storeOk ==>
              forall id :: id != remote.value.user.id ==> GetUserById(st.store, id) == GetUserById(s, id)
    ensures remote.Ok? && !storeOk ==> st.store == s
    ensures remote.Fail? ==> st.store == s
    ensures remote.Fail? ==> st.result.Error? && st.result.code == None
    ensures remote.Fail? ==> st.result.message == remote.message.GetOr(default)
  {
    match remote
    case Ok(response) => Step(SaveUserToLocal(s, response.user, storeOk), Success(response), [call])
    case Fail(message) => Step(s, ErrorOf(message, default), [call])
  }

  /** `register`. */
  function Register(s: Store, request: RegisterRequest, remote: Outcome<AuthResponse>, storeOk: bool)
    : (st: Step<ApiResult<AuthResponse>>)
    ensures st.calls == [RegisterCall(request)]
    ensures !st.result.Loading?
    ensures st.result.Success? <==> remote.Ok?
    ensures remote.Ok? ==> st.result.data == remote.value
    ensures remote.Ok? && storeOk ==> GetUserById(st.store, remote.value.user.id) == Some(remote.value.user)
    ensures remote.Ok? && storeOk ==>
              forall id :: id != remote.value.user.id ==> GetUserById(st.store, id) == GetUserById(s, id)
    ensures remote.Ok? && !storeOk ==> st.store == s
    ensures remote.Fail? ==> st.store == s && st.result.code == None
    ensures remote.Fail? ==> st.result.message == remote.message.GetOr(RegisterFailed)
  {
    Authenticate(s, RegisterCall(request), remote, storeOk, RegisterFailed)
  }

  /** `login`. */
  function Login(s: Store, request: LoginRequest, remote: Outcome<AuthResponse>, storeOk: bool)
    : (st: Step<ApiResult<AuthResponse>>)
    ensures st.calls == [LoginCall(request)]
    ensures !st.result.Loading?
    ensures st.result.Success? <==> remote.Ok?
    ensures remote.Ok? ==> st.result.data == remote.value
    ensures remote.Ok? && storeOk ==> GetUserById(st.store, remote.value.user.id) == Some(remote.value.user)
    ensures remote.Ok? && storeOk ==>
              forall id :: id != remote.value.user.id ==> GetUserById(st.store, id) == GetUserById(s, id)
    ensures remote.Ok? && !storeOk ==> st.store == s
    ensures remote.Fail? ==> st.store == s && st.result.code == None
    ensures remote.Fail? ==> st.result.message == remote.message.GetOr(LoginFailed)
  {
    Authenticate(s, LoginCall(request), remote, storeOk, LoginFailed)
  }

  /** The shared shape of the two profile operations: cache and return the server's user. */
  function Profile(s: Store, call: Call, remote: Outcome<User>, storeOk: bool, default: string)
    : (st: Step<ApiResult<User>>)
    ensures st.calls == [call]
    ensures st.result.Success? <==> remote.Ok?
    ensures remote.Ok? ==> st.result.data == remote.value
    ensures remote.Ok? && storeOk ==> GetUserById(st.store, remote.value.id) == Some(remote.value)
    ensures remote.Ok? && storeOk ==>
              forall id :: id != remote.value.id ==> GetUserById(st.store, id) == GetUserById(s, id)
    ensures remote.Ok? && !storeOk ==> st.store == s
    ensures remote.Fail? ==> st.store == s
    ensures remote.Fail? ==> st.result.Error? && st.result.code == None
    ensures remote.Fail? ==> st.result.message == remote.message.GetOr(default)
  {
    match remote
    case Ok(user) => Step(SaveUserToLocal(s, user, storeOk), Success(user), [call])
    case Fail(message) => Step(s, ErrorOf(message, default), [call])
  }

  /** `getUserProfile`: fetch with the bearer token. */
  function GetUserProfile(s: Store, remote: Outcome<User>, storeOk: bool): (st: Step<ApiResult<User>>)
    ensures st.calls == [GetProfileCall(BearerToken)]
    ensures !st.result.Loading?
    ensures st.result.Success? <==> remote.Ok?
    ensures remote.Ok? ==> st.result.data == remote.value
    ensures remote.Ok? && storeOk ==> GetUserById(st.store, remote.value.id) == Some(remote.value)
    ensures remote.Ok? && storeOk ==>
              forall id :: id != remote.value.id ==> GetUserById(st.store, id) == GetUserById(s, id)
    ensures remote.Ok? && !storeOk ==> st.store == s
    ensures remote.Fail? ==> st.store == s && st.result.code == None
    ensures remote.Fail? ==> st.result.message == remote.message.GetOr(GetProfileFailed)
  {
    Profile(s, GetProfileCall(BearerToken), remote, storeOk, GetProfileFailed)
  }

  /**
   * `updateUserProfile`: push `user` with the bearer token; what is returned
   * and cached is the server's copy, not the argument.
   */
  function UpdateUserProfile(s: Store, user: User, remote: Outcome<User>, storeOk: bool)
    : (st: Step<ApiResult<User>>)
    ensures st.calls == [UpdateProfileCall(BearerToken, user)]
    ensures !st.result.Loading?
    ensures st.result.Success? <==> remote.Ok?
    ensures remote.Ok? ==> st.result.data == remote.value
    ensures remote.Ok? && storeOk ==> GetUserById(st.store, remote.value.id) == Some(remote.value)
    ensures remote.Ok? && storeOk ==>
              forall id :: id != remote.value.id ==> GetUserById(st.store, id) == GetUserById(s, id)
    ensures remote.Ok? && !storeOk ==> st.store == s
    ensures remote.Fail? ==> st.store == s && st.result.code == None
    ensures remote.Fail? ==> st.result.message == remote.message.GetOr(UpdateProfileFailed)
  {
    Profile(s, UpdateProfileCall(BearerToken, user), remote, storeOk, UpdateProfileFailed)
  }

  /** A successful login or register can be read back from the table under the user's id. */
  lemma AuthenticatedUserReadBack(s: Store, call: Call, response: AuthResponse, default: string)
    ensures var st := Authenticate(s, call, Ok(response), true, default);
      && GetUserFromLocal(st.store, response.user.id, true) == Some(response.user)
      && forall id :: id != response.user.id ==> GetUserFromLocal(st.store, id, true) == GetUserFromLocal(s, id, true)
  {
  }

  /** Saving the same user twice leaves the table as saving it once. */
  lemma SaveIdempotent(s: Store, u: User, storeOk: bool)
    ensures SaveUserToLocal(SaveUserToLocal(s, u, storeOk), u, storeOk) == SaveUserToLocal(s, u, storeOk)
  {
    if storeOk {
      InsertIdempotent(s, u);
    }
  }

  /** The login check and the current-user flow agree: logged in exactly when a user is emitted. */
  lemma LoggedInIffCurrentUserEmitted(s: Store, storeOk: bool)
    ensures IsUserLoggedIn(s, storeOk) <==> GetCurrentUser(s, storeOk)[0].Some?
  {
  }

  /**
   * After a logout whose deletion succeeds nobody is logged in, the current-user
   * flow emits null, and no id can be read back.
   */
  lemma LogoutSignsOut(s: Store, storeOk: bool, id: string)
    ensures !IsUserLoggedIn(Logout(s, true), storeOk)
    ensures GetCurrentUser(Logout(s, true), storeOk) == [None]
    ensures GetUserFromLocal(Logout(s, true), id, storeOk) == None
  {
  }

  /** A login whose response carries user "1": success with that response, and the row is cached. */
  lemma LoginSucceedsScenario(s: Store, createdAt: int, lastLoginAt: int)
    ensures var user := User("1", "test@example.com", "Test User", None, false, createdAt, lastLoginAt);
      var response := AuthResponse(user, "token");
      var st := Login(s, LoginRequest("test@example.com", "password"), Ok(response), true);
      && st.result == Success(response)
      && GetUserFromLocal(st.store, "1", true) == Some(user)
  {
  }

  /** A login rejected with "Invalid credentials" reports that message and writes nothing. */
  lemma LoginFailsScenario(s: Store)
    ensures var st := Login(s, LoginRequest("test@example.com", "password"), Fail(Some("Invalid credentials")), true);
      && st.result == Error("Invalid credentials", None)
      && st.store == s
  {
  }

  /** A profile fetch that returns a user succeeds with exactly that user. */
  lemma GetUserProfileScenario(s: Store, createdAt: int, lastLoginAt: int)
    ensures var user := User("1", "test@example.com", "Test User", None, false, createdAt, lastLoginAt);
      GetUserProfile(s, Ok(user), true).result == Success(user)
  {
  }
}
