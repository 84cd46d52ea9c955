/** The identity claim a session token carries (`JwtPayload` / `TokenPayload`). */
module Identity {
  import opened Tables

  /** `user_type`: `"user"` or `"admin"`. */
  datatype Role = UserRole | AdminRole

  /** `{ id, email, user_type }`, the payload signed into the session cookie. */
  datatype Claim = Claim(id: Id, email: string, role: Role)
}
