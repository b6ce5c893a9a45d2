/** The remote client as seen by the repository: the result union and the outcome of one call. */
module ApiService {
  import opened Wrappers
  import opened UserModel

  /** The outcome of one repository operation. */
  datatype ApiResult<+T> = Success(data: T) | Error(message: string, code: Option<int>) | Loading

  /**
   * What one remote call did: returned a value, or threw an exception whose
   * message may be null (`Fail(None)`).
   */
  datatype Outcome<+T> = Ok(value: T) | Fail(message: Option<string>)

  /** A request sent to the server, with the credential it carries. */
  datatype Call =
    | RegisterCall(registerRequest: RegisterRequest)
    | LoginCall(loginRequest: LoginRequest)
    | GetProfileCall(token: string)
    | UpdateProfileCall(token: string, user: User)
}
