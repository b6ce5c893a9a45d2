# Session layer of the Kotlin Android demo app, in Dafny

This project models the authentication and session layer of the demo app. That layer has three parts:

- **`UserDao`**: the Room `users` table. It is modelled as a map from primary key to `User` row. The subset type `Store` carries the primary-key invariant: every row is stored under its own `id`.
- **`UserRepositoryImpl`**: calls the remote API and then the table. The remote call's outcome is an input, `Ok(value)` or `Fail(message-or-null)`, and so is a boolean saying whether the table call succeeded. Each operation is then a pure function from `(store, outcomes)` to the new store, its result and the remote requests it sent. Every failure becomes `ApiResult.Error(message ?: default)` or a safe default (`null`, `false`, no-op).
- **`AuthViewModel`**: a state machine over `(AuthUiState, currentUser)`. Each coroutine body is one atomic event. `register` and `login` are two events each: publishing `Loading`, and applying the repository's answer. The module `Session` puts the controller and the repository together: the login/register/logout flows, and the two start-up answers arriving in either order.

Files: `wrappers.dfy` (Kotlin nullable as `Option`), `user.dfy` (records of `User.kt`), `api_service.dfy` (`ApiResult`, remote call outcome, request record), `user_dao.dfy`, `user_repository.dfy`, `auth_view_model.dfy`, `session.dfy`.

Timestamps are opaque integers. The hard-coded `"current_user_id"` and `"Bearer token"` are the constants `UserRepository.CurrentUserId` and `UserRepository.BearerToken`.

Three behaviours of the code are worth knowing:

- `currentUser` is not tied to the row under the active id. A login caches the response user under that user's own id, while lookups use the fixed `"current_user_id"` (`Session.CurrentUserNotTiedToActiveId`).
- A failed call reports the exception's message, or the operation's default message when the exception's message is null (`UserRepository.ErrorOf`).
- `getCurrentUser` emits exactly one value and then completes (`UserRepository.GetCurrentUser`).

## Model

| member | source | states |
|---|---|---|
| `UserDao.GetUserById` | app/src/main/java/com/example/kotlinapp/data/local/UserDao.kt:23-24 | finds a row exactly when the id is present; the row found carries the id asked for |
| `UserDao.UserExists` | app/src/main/java/com/example/kotlinapp/data/local/UserDao.kt:59-60 | true exactly when `GetUserById` finds a row |
| `UserDao.InsertUser` | app/src/main/java/com/example/kotlinapp/data/local/UserDao.kt:17-18 | replace-on-conflict: afterwards the id reads back the new row, and every other id reads back what it did before |
| `UserDao.UpdateUser` | app/src/main/java/com/example/kotlinapp/data/local/UserDao.kt:41-42 | overwrites an existing row with the same id; an absent id leaves the table unchanged; other ids are untouched |
| `UserDao.DeleteUser` | app/src/main/java/com/example/kotlinapp/data/local/UserDao.kt:47-48 | removes the row keyed by the argument's id; other ids are untouched |
| `UserDao.DeleteAllUsers` | app/src/main/java/com/example/kotlinapp/data/local/UserDao.kt:53-54 | the table is empty and no id exists |
| `UserDao.GetAllUsers` | app/src/main/java/com/example/kotlinapp/data/local/UserDao.kt:35-36 | lists every stored row exactly once: same count as the table, same rows, no id twice |
| `UserDao.DeleteAllThenList` | app/src/main/java/com/example/kotlinapp/data/local/UserDao.kt:53-54 | after deleting all rows, listing them gives the empty list |
| `UserDao.InsertIdempotent` | app/src/main/java/com/example/kotlinapp/data/local/UserDao.kt:17-18 | inserting the same row twice leaves the same table as inserting it once |
| `UserDao.AtMostOneRowPerId` | app/src/main/java/com/example/kotlinapp/data/model/User.kt:15-16 | `id` is the primary key: two stored rows with the same id are the same row |
| `UserRepository.ErrorOf` | app/src/main/java/com/example/kotlinapp/data/repository/UserRepositoryImpl.kt:36-39 | a failure becomes `Error` with no code, carrying the exception's message, or the default when the message is null |
| `UserRepository.SaveUserToLocal` | app/src/main/java/com/example/kotlinapp/data/repository/UserRepositoryImpl.kt:107-114 | on table success the user reads back under its id and other ids are untouched; on table failure the table is unchanged and nothing is signalled |
| `UserRepository.GetUserFromLocal` | app/src/main/java/com/example/kotlinapp/data/repository/UserRepositoryImpl.kt:116-123 | returns a user exactly when the table call succeeds and the id exists, and then it is the stored row with that id; otherwise null |
| `UserRepository.ClearLocalUserData` | app/src/main/java/com/example/kotlinapp/data/repository/UserRepositoryImpl.kt:125-132 | on success no id exists any more; on failure the table is unchanged |
| `UserRepository.Logout` | app/src/main/java/com/example/kotlinapp/data/repository/UserRepositoryImpl.kt:54-61 | on success the table is empty; on failure it is unchanged; no error is ever signalled |
| `UserRepository.IsUserLoggedIn` | app/src/main/java/com/example/kotlinapp/data/repository/UserRepositoryImpl.kt:97-105 | true exactly when the table call succeeds and `"current_user_id"` exists |
| `UserRepository.GetCurrentUser` | app/src/main/java/com/example/kotlinapp/data/repository/UserRepositoryImpl.kt:63-71 | emits exactly one value: the lookup of `"current_user_id"`, or null when the lookup fails |
| `UserRepository.Register` | app/src/main/java/com/example/kotlinapp/data/repository/UserRepositoryImpl.kt:30-40 | sends the request once; never `Loading`; `Success` exactly when the remote call succeeds, carrying exactly the response, whose user is then cached while every other id reads as before; a failed save keeps the `Success`; on failure the message or the register default, with the table unchanged |
| `UserRepository.Login` | app/src/main/java/com/example/kotlinapp/data/repository/UserRepositoryImpl.kt:42-52 | the same as `Register`, with the login request and the login default message |
| `UserRepository.GetUserProfile` | app/src/main/java/com/example/kotlinapp/data/repository/UserRepositoryImpl.kt:73-83 | sends a profile fetch with the bearer token; `Success` of the server's user, cached under its id with every other id unchanged, exactly when the call succeeds; otherwise the message or default, table unchanged |
| `UserRepository.UpdateUserProfile` | app/src/main/java/com/example/kotlinapp/data/repository/UserRepositoryImpl.kt:85-95 | sends the argument with the bearer token; returns and caches the server's copy, not the argument; every id other than the server copy's reads as before, so the argument's own id is left alone when the ids differ; on failure the table is unchanged |
| `UserRepository.AuthenticatedUserReadBack` | app/src/main/java/com/example/kotlinapp/data/repository/UserRepositoryImpl.kt:32-35 | after a successful login or register, `getUserFromLocal(user.id)` returns the response user and every other id reads as before |
| `UserRepository.SaveIdempotent` | app/src/main/java/com/example/kotlinapp/data/repository/UserRepositoryImpl.kt:107-114 | saving the same user twice leaves the same table as saving it once |
| `UserRepository.LoggedInIffCurrentUserEmitted` | app/src/main/java/com/example/kotlinapp/data/repository/UserRepositoryImpl.kt:63-105 | the login check is true exactly when the current-user flow emits a user |
| `UserRepository.LogoutSignsOut` | app/src/main/java/com/example/kotlinapp/data/repository/UserRepositoryImpl.kt:54-61 | after a successful logout nobody is logged in, the current-user flow emits null and no id can be read back |
| `UserRepository.LoginSucceedsScenario` | app/src/test/java/com/example/kotlinapp/UserRepositoryTest.kt:35-51 | the unit test's login as user "1", for any timestamps, returns `Success` of that response, and row "1" is cached |
| `UserRepository.LoginFailsScenario` | app/src/test/java/com/example/kotlinapp/UserRepositoryTest.kt:53-67 | a login rejected with "Invalid credentials" returns `Error("Invalid credentials")` and writes nothing |
| `UserRepository.GetUserProfileScenario` | app/src/test/java/com/example/kotlinapp/UserRepositoryTest.kt:69-83 | the unit test's profile fetch, for any timestamps, returns `Success` of the server's user |
| `AuthViewModel.BeginAuth` | app/src/main/java/com/example/kotlinapp/presentation/viewmodel/AuthViewModel.kt:44-46 | register/login first publish `Loading` and keep the current user |
| `AuthViewModel.CompleteAuth` | app/src/main/java/com/example/kotlinapp/presentation/viewmodel/AuthViewModel.kt:51-62 | `Success(resp)` sets both the status and the current user to `resp.user`; `Error(m)` sets `Error(m)` and keeps the user; `Loading` maps to `Loading` |
| `AuthViewModel.Logout` | app/src/main/java/com/example/kotlinapp/presentation/viewmodel/AuthViewModel.kt:94-100 | ends in `(Initial, null)` from any state |
| `AuthViewModel.ClearError` | app/src/main/java/com/example/kotlinapp/presentation/viewmodel/AuthViewModel.kt:131-133 | status `Initial` from any state; current user unchanged |
| `AuthViewModel.OnCurrentUser` | app/src/main/java/com/example/kotlinapp/presentation/viewmodel/AuthViewModel.kt:117-126 | an emission always becomes the current user; a user emission sets `Success(user)`; a null emission leaves the status alone |
| `AuthViewModel.OnLoginStatus` | app/src/main/java/com/example/kotlinapp/presentation/viewmodel/AuthViewModel.kt:105-112 | not logged in sets `Initial`; logged in changes nothing; the current user is never touched |
| `AuthViewModel.Trace` | app/src/main/java/com/example/kotlinapp/presentation/viewmodel/AuthViewModel.kt:29-30 | the published status sequence has one entry per event, each the status after the events so far |
| `AuthViewModel.SuccessOnlyGranted` | app/src/main/java/com/example/kotlinapp/presentation/viewmodel/AuthViewModel.kt:44-133 | status `Success(u)` after an event means a successful completion or a user emission granted `u`, or it was already `Success(u)` and the event left it alone |
| `AuthViewModel.ErrorOnlyReported` | app/src/main/java/com/example/kotlinapp/presentation/viewmodel/AuthViewModel.kt:44-133 | status `Error(m)` after an event means a failed completion reported `m`, or it already was `Error(m)` |
| `AuthViewModel.RunAppend` | app/src/main/java/com/example/kotlinapp/presentation/viewmodel/AuthViewModel.kt:44-133 | running two event sequences one after the other is running their concatenation |
| `AuthViewModel.LogoutResets` | app/src/main/java/com/example/kotlinapp/presentation/viewmodel/AuthViewModel.kt:94-100 | after any history, a logout ends in the initial state |
| `AuthViewModel.NoSuccessWithoutGrant` | app/src/main/java/com/example/kotlinapp/presentation/viewmodel/AuthViewModel.kt:44-133 | with no successful completion and no user emission, a non-`Success` status never becomes `Success`: logout, clearError and the status check cannot produce it |
| `AuthViewModel.CurrentUserStable` | app/src/main/java/com/example/kotlinapp/presentation/viewmodel/AuthViewModel.kt:44-133 | begin, failed completion, clearError and the status check never change the current user |
| `Session.AuthFlow` | app/src/main/java/com/example/kotlinapp/presentation/viewmodel/AuthViewModel.kt:44-89 | a register/login body publishes `Loading` and then the completed status, and stores what the repository stored |
| `Session.LoginFlow` | app/src/main/java/com/example/kotlinapp/presentation/viewmodel/AuthViewModel.kt:69-89 | publishes exactly `Loading`, then `Success` when the remote call succeeds or `Error` when it fails, never `Loading` again; on success the user is current and cached; on failure the user and the table are unchanged |
| `Session.RegisterFlow` | app/src/main/java/com/example/kotlinapp/presentation/viewmodel/AuthViewModel.kt:44-64 | the same as `LoginFlow`, for register and its default message |
| `Session.LogoutFlow` | app/src/main/java/com/example/kotlinapp/presentation/viewmodel/AuthViewModel.kt:94-100 | the controller returns to `(Initial, null)`; the table is empty unless its deletion failed, in which case it is unchanged |
| `Session.Startup` | app/src/main/java/com/example/kotlinapp/presentation/viewmodel/AuthViewModel.kt:29-39 | from the empty state `(Initial, null)`, the current user is the flow's single emission; the status is `Success` of that user exactly when a user was emitted and, if the status check answered last, it found the user logged in; otherwise it is `Initial` |
| `Session.StartupOrderIrrelevant` | app/src/main/java/com/example/kotlinapp/presentation/viewmodel/AuthViewModel.kt:36-39 | when both table calls succeed, either order of the two start-up answers gives the same state: `Success` of the stored signed-in user, or `(Initial, null)` when there is none |
| `Session.StartupOrderMattersOnFailedCheck` | app/src/main/java/com/example/kotlinapp/presentation/viewmodel/AuthViewModel.kt:36-39 | if the status check fails but the lookup succeeds, the final status depends on which answer arrives first |
| `Session.CurrentUserNotTiedToActiveId` | app/src/main/java/com/example/kotlinapp/data/repository/UserRepositoryImpl.kt:63-71 | after a successful login as user "1", `currentUser` is set but no row exists under `"current_user_id"` |

## Left out

- `UserDao.getUserByIdFlow` (UserDao.kt:29-30): the reactive variant of `getUserById`, used by nothing in this layer. A snapshot of it is `UserDao.GetUserById`.
- Flow reactivity: `getAllUsers` is modelled as one snapshot (`UserDao.GetAllUsers`), and `getCurrentUser` as its list of emissions. StateFlow replay and conflation are not modelled.
- Coroutine scheduling: each launched body is modelled as atomic events. Overlapping login calls, last-write-wins races and scope cancellation are not modelled. The exception is the order of the two start-up answers (`Session.Startup`).
- Partial table failures: a failed table call is assumed to leave the table as it was, as a rolled-back Room transaction does.
- The remote client's HTTP behaviour (Retrofit annotations, headers, `uploadAvatar`) and the `NetworkError` classes are not modelled. The repository catches every exception alike, so only the outcome of a call matters. That outcome is an input and does not depend on the request sent. The request is recorded in `Step.calls`.
- Timber logging, which is only a side effect.
- `User.createEmpty` and the `System.currentTimeMillis()` defaults of `User`: these are clock reads. Timestamps are parameters here.
- Dependency injection, the Room database builder, Compose screens, navigation and the interop utilities are not part of this model.
