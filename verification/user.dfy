/** The records exchanged by the session layer: the `users` row and the auth requests/response. */
module UserModel {
  import opened Wrappers

  /** A `users` row. `id` is the primary key; timestamps are opaque milliseconds. */
  datatype User = User(
    id: string,
    email: string,
    name: string,
    avatarUrl: Option<string>,
    isEmailVerified: bool,
    createdAt: int,
    lastLoginAt: int
  )

  datatype RegisterRequest = RegisterRequest(email: string, password: string, name: string)

  datatype LoginRequest = LoginRequest(email: string, password: string)

  /** What the server returns for a register or login: the user and its token. */
  datatype AuthResponse = AuthResponse(user: User, token: string)
}
